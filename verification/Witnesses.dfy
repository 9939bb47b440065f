// For each divergence between the code and what one would expect of it, an input on the failing side.
module Witnesses {
  import opened Common
  import opened GoText
  import opened Prune
  import opened Disk
  import opened Plans
  import opened CrashSafety
  import opened Recovery
  import Concurrency
  import Protocol
  import LocalSpectra
  import Agent
  import CapabilityCache
  import FlagSet
  import Plist
  import LaunchAgent
  import AgentCommand

  // ---------------------------------------------------------------------
  // A small world: versions are ranked by length, a binary of a version has its length
  // ---------------------------------------------------------------------

  const OLD := "9"
  const NEW := "10"

  function SampleBinary(v: string): Bytes {
    seq(|v|, _ => 7)
  }

  function SampleWorld(): World {
    World((v: string) => v != "", (v: string) => |v|, (b: Bytes) => seq(|b|, _ => 'f'),
          (v: string, b: Bytes) => true, (v: string, b: Bytes) => b == SampleBinary(v))
  }

  function SampleInstall(v: string, keep: int, sweep: seq<string>, removed: seq<string>): Op {
    Op.Install(v, false, keep, 0, "archive-1", [], SampleBinary(v), true, sweep, removed)
  }

  function Recording(v: string): VersionInfo {
    VersionInfo(SampleWorld().digest(SampleBinary(v)), 0)
  }

  lemma ArchiveNameIsFree()
    ensures "archive-1" !in {BINARY, CANDIDATE, BACKUP}
  {
    assert "archive-1"[0] == 'a' && BINARY[0] == 's' && CANDIDATE[0] == 'c' && BACKUP[0] == 'r';
  }

  /** An install that fits the root, for some order of clearing staging. */
  lemma SomeInstall(d: Disk, v: string, keep: int, removed: seq<string>) returns (op: Op)
    requires Inv(SampleWorld(), d)
    requires
      var s := Recorded(SampleWorld(), Stored(SampleWorld(), d), v, SampleBinary(v), 0);
      Listing(removed, s.versions.Keys - Survivors(s, keep))
    ensures op == SampleInstall(v, keep, op.sweep, removed) && Feasible(SampleWorld(), d, op)
  {
    hide Survivors;
    ArchiveNameIsFree();
    var sweep := Concurrency.ListingExists(Staged(d));
    op := SampleInstall(v, keep, sweep, removed);
  }

  lemma PinnedAreKept(s: State, keep: int)
    requires s.versions.Keys <= Pinned(s, keep) && (keep > 1 || s.previous == "")
    ensures s.versions.Keys - Survivors(s, keep) == {} && Pruned(s, keep) == s
  {
    assert Pruned(s, keep).versions == s.versions;
  }

  lemma SampleCommits(d: Disk, op: Op)
    requires Inv(SampleWorld(), d) && op.Install? && op.version != "" && op.approved
    requires VersionChangeAllowed(SampleWorld(), Stored(SampleWorld(), d).current, op.version, op.update)
    ensures Commits(SampleWorld(), d, op) && Decide(SampleWorld(), d, op).target == op.version
    ensures
      var s := Recorded(SampleWorld(), Stored(SampleWorld(), d), op.version, op.binary, op.now);
      && Decide(SampleWorld(), d, op).state == Pruned(s, op.keep)
      && PruneList(SampleWorld(), d, op) == s.versions.Keys - Survivors(s, op.keep)
  {
    hide Pruned, Survivors, Recorded;
  }

  /** An install that commits and prunes nothing. */
  lemma CompleteInstall(d: Disk, v: string, keep: int, s: State) returns (op: Op)
    requires Inv(SampleWorld(), d) && v != ""
             && VersionChangeAllowed(SampleWorld(), Stored(SampleWorld(), d).current, v, false)
    requires s == Recorded(SampleWorld(), Stored(SampleWorld(), d), v, SampleBinary(v), 0)
    requires s.versions.Keys <= Pinned(s, keep) && (keep > 1 || s.previous == "")
    ensures op.Install? && op.version == v && Feasible(SampleWorld(), d, op) && Commits(SampleWorld(), d, op)
    ensures
      var u := Full(SampleWorld(), d, op);
      u.versions == d.versions[v := Some(SampleBinary(v))] && u.link == Some(v) && u.stateFile == Saved(STATE_SCHEMA, s)
  {
    hide Survivors, Pruned, Pinned, Full, Steps, Recorded, Decide, Feasible, Inv, ReadState, SampleBinary,
        VersionChangeAllowed, PruneList;
    PinnedAreKept(s, keep);
    op := SomeInstall(d, v, keep, []);
    SampleCommits(d, op);
    FullOutcome(SampleWorld(), d, op);
    assert PruneList(SampleWorld(), d, op) == {};
    assert d.versions[v := Some(SampleBinary(v))] - {} == d.versions[v := Some(SampleBinary(v))];
  }

  /** The root after OLD was installed on an empty one. */
  predicate HasOld(d: Disk) {
    && d.versions == map[OLD := Some(SampleBinary(OLD))] && d.link == Some(OLD)
    && d.stateFile == Saved(STATE_SCHEMA, State(OLD, "", map[OLD := Recording(OLD)]))
  }

  lemma OldIsThere(d: Disk)
    requires HasOld(d)
    ensures OLD in d.versions
  {
  }

  lemma FirstInstall(keep: int) returns (op: Op)
    ensures op.Install? && op.version == OLD && Feasible(SampleWorld(), EMPTY, op) && Commits(SampleWorld(), EMPTY, op)
    ensures HasOld(Full(SampleWorld(), EMPTY, op))
    ensures Inv(SampleWorld(), EMPTY) && Stored(SampleWorld(), EMPTY) == NO_STATE
  {
    EveryRunKeepsInv(SampleWorld(), []);
    var s := State(OLD, "", map[OLD := Recording(OLD)]);
    assert s.versions.Keys == {OLD};
    hide Full, Steps, Decide, Feasible;
    op := CompleteInstall(EMPTY, OLD, keep, s);
  }

  lemma RunOfOne(op: Op, k: nat)
    requires Feasible(SampleWorld(), EMPTY, op) && k <= |Steps(SampleWorld(), EMPTY, op)|
    ensures PossibleRun(SampleWorld(), EMPTY, [Event(op, k)])
    ensures After(SampleWorld(), EMPTY, [Event(op, k)]) == Cut(SampleWorld(), EMPTY, op, k)
  {
    hide Cut, Steps, Feasible;
    Concurrency.AppendEvent(SampleWorld(), [], Event(op, k));
    assert [] + [Event(op, k)] == [Event(op, k)];
  }

  /** A run that installs OLD and nothing else. */
  lemma OldInstalled(keep: int) returns (es: seq<Event>)
    ensures PossibleRun(SampleWorld(), EMPTY, es) && HasOld(After(SampleWorld(), EMPTY, es))
    ensures Inv(SampleWorld(), After(SampleWorld(), EMPTY, es))
  {
    var op := FirstInstall(keep);
    FullIsCut(SampleWorld(), EMPTY, op);
    RunOfOne(op, |Steps(SampleWorld(), EMPTY, op)|);
    es := [Event(op, |Steps(SampleWorld(), EMPTY, op)|)];
    EveryRunKeepsInv(SampleWorld(), es);
  }

  // ---------------------------------------------------------------------
  // Retention
  // ---------------------------------------------------------------------

  const FOUR := State("v4", "v3",
                      map["v1" := VersionInfo("", 1), "v2" := VersionInfo("", 2), "v3" := VersionInfo("", 3),
                          "v4" := VersionInfo("", 4)])

  lemma FourNames()
    ensures FOUR.versions.Keys == {"v1", "v2", "v3", "v4"} && |FOUR.versions| == 4
  {
    DistinctNames();
    assert FOUR.versions.Keys == {"v1", "v2", "v3", "v4"};
  }

  lemma FourExtras()
    ensures Pinned(FOUR, 4) == {"v4", "v3"} && Extras(FOUR, 4) == {"v1", "v2"} && |Extras(FOUR, 4)| == 2
    ensures Budget(FOUR, 4) == 2
  {
    DistinctNames();
    FourNames();
    assert Extras(FOUR, 4) == {"v1", "v2"};
  }

  lemma AllBest(m: Metadata, es: set<string>)
    requires es <= m.Keys
    ensures Best(m, es, |es|) == es
  {
    BestSize(m, es, |es|);
    SubsetSize(Best(m, es, |es|), es);
  }

  /** Keeping four of four versions drops one. */
  lemma PruneDropsFromAFullBudget()
    ensures |FOUR.versions| == 4 && Pruned(FOUR, 4) != FOUR && PrunedFixedBudget(FOUR, 4) == FOUR
  {
    FourNames();
    FourExtras();
    assert FOUR.current == "v4" && FOUR.previous == "v3";
    hide FOUR, Best, Pruned, Survivors, Pinned, Extras, Budget;
    PruneMeetsFixedBudgetIff(FOUR, 4);
    AllBest(FOUR.versions, Extras(FOUR, 4));
    assert PrunedFixedBudget(FOUR, 4).versions == FOUR.versions;
  }

  lemma DistinctNames()
    ensures "v1" != "v2" && "v1" != "v3" && "v1" != "v4" && "v2" != "v3" && "v2" != "v4" && "v3" != "v4"
  {
    assert "v1"[1] == '1' && "v2"[1] == '2' && "v3"[1] == '3' && "v4"[1] == '4';
  }

  // ---------------------------------------------------------------------
  // Crashes
  // ---------------------------------------------------------------------

  /**
   * A first install cut behind the link switch: the link names a version the state does not, and no drift is
   * reported.
   */
  lemma FirstInstallDriftIsSilent() returns (es: seq<Event>)
    ensures PossibleRun(SampleWorld(), EMPTY, es)
    ensures
      var w, d := SampleWorld(), After(SampleWorld(), EMPTY, es);
      && Inv(w, d) && d.link == Some(OLD) && Stored(w, d).current == ""
      && Status(w, d, d).Ok? && !Status(w, d, d).value.drift
  {
    var w := SampleWorld();
    var op := FirstInstall(2);
    var k := SwitchAt(op) + 3;
    LastCallIsBehindSwitch(w, EMPTY, op);
    SwitchIsAtomic(w, EMPTY, op, k);
    RunOfOne(op, k);
    es := [Event(op, k)];
    EveryRunKeepsInv(w, es);
  }

  /** A reinstallation cut between its renames: the link dangles. */
  lemma ReinstallLeavesLinkDangling() returns (es: seq<Event>)
    ensures PossibleRun(SampleWorld(), EMPTY, es) && !LinkResolves(After(SampleWorld(), EMPTY, es))
  {
    var w := SampleWorld();
    var run := OldInstalled(2);
    var d := After(w, EMPTY, run);
    var s := State(OLD, "", map[OLD := Recording(OLD)]);
    assert s.versions.Keys == {OLD};
    var op := CompleteInstall(d, OLD, 2, s);
    hide Full, Cut, Steps, Decide, Feasible;
    LastCallIsBehindSwitch(w, d, op);
    var k := SwitchAt(op) - 1;
    LinkBreaksExactlyBetweenRenames(w, d, op, k);
    Concurrency.AppendEvent(w, run, Event(op, k));
    es := run + [Event(op, k)];
  }

  lemma OldIsNotNew()
    ensures OLD != NEW && |OLD| < |NEW|
  {
  }

  /** The root after OLD and then NEW were installed, both kept. */
  predicate HasBoth(d: Disk) {
    && d.versions == map[OLD := Some(SampleBinary(OLD)), NEW := Some(SampleBinary(NEW))] && d.link == Some(NEW)
    && d.stateFile == Saved(STATE_SCHEMA, State(NEW, OLD, map[OLD := Recording(OLD), NEW := Recording(NEW)]))
  }

  lemma BothInstalled() returns (es: seq<Event>)
    ensures PossibleRun(SampleWorld(), EMPTY, es) && HasBoth(After(SampleWorld(), EMPTY, es))
    ensures Inv(SampleWorld(), After(SampleWorld(), EMPTY, es))
  {
    var w := SampleWorld();
    OldIsNotNew();
    var run := OldInstalled(2);
    var d := After(w, EMPTY, run);
    var s := State(NEW, OLD, map[OLD := Recording(OLD), NEW := Recording(NEW)]);
    assert s.versions.Keys == {OLD, NEW};
    assert s == Recorded(w, Stored(w, d), NEW, SampleBinary(NEW), 0);
    var op := CompleteInstall(d, NEW, 2, s);
    hide Full, Cut, Steps, Decide, Feasible;
    FullIsCut(w, d, op);
    var k := |Steps(w, d, op)|;
    Concurrency.AppendEvent(w, run, Event(op, k));
    es := run + [Event(op, k)];
    EveryRunKeepsInv(w, es);
  }

  /** A rollback cut behind the link switch, and the documented repair refused on the root it leaves. */
  lemma RepairAfterRollbackIsRefused() returns (es: seq<Event>, repair: Op)
    ensures PossibleRun(SampleWorld(), EMPTY, es)
    ensures
      var w, d := SampleWorld(), After(SampleWorld(), EMPTY, es);
      && Inv(w, d) && d.link == Some(OLD) && Stored(w, d).current == NEW
      && repair.Install? && repair.version == OLD && repair.approved && Feasible(w, d, repair)
      && !Commits(w, d, repair) && Status(w, d, d).Ok? && Status(w, d, d).value.drift
  {
    var w := SampleWorld();
    OldIsNotNew();
    var run := BothInstalled();
    var d := After(w, EMPTY, run);
    var sweep := Concurrency.ListingExists(Staged(d));
    var op := Op.Rollback(sweep);
    assert RollbackAllowed(w, d, Stored(w, d));
    LastCallIsBehindSwitch(w, d, op);
    var k := SwitchAt(op) + 3;
    SwitchIsAtomic(w, d, op, k);
    DiskAtCut(w, d, op, k);
    Concurrency.AppendEvent(w, run, Event(op, k));
    es := run + [Event(op, k)];
    EveryRunKeepsInv(w, es);
    var c := After(w, EMPTY, es);
    var again := Concurrency.ListingExists(Staged(c));
    repair := SampleInstall(OLD, 2, again, []);
    ArchiveNameIsFree();
    assert !VersionChangeAllowed(w, NEW, OLD, false);
    assert |w.digest(SampleBinary(OLD))| == 1 && |w.digest(SampleBinary(NEW))| == 2;
  }

  lemma UpdatedRecord(d: Disk)
    requires HasOld(d) && Inv(SampleWorld(), d)
    ensures
      var s := Recorded(SampleWorld(), Stored(SampleWorld(), d), NEW, SampleBinary(NEW), 0);
      s.current == NEW && s.versions.Keys == {OLD, NEW} && s.versions.Keys - Survivors(s, 1) == {OLD}
    ensures VersionChangeAllowed(SampleWorld(), Stored(SampleWorld(), d).current, NEW, false)
  {
    OldIsNotNew();
    var s := Recorded(SampleWorld(), Stored(SampleWorld(), d), NEW, SampleBinary(NEW), 0);
    assert s == State(NEW, OLD, map[OLD := Recording(OLD), NEW := Recording(NEW)]);
    OnlyCurrentIsKept(s);
    assert s.versions.Keys == {OLD, NEW};
  }

  lemma SomeUpdate(d: Disk, v: string, prior: string) returns (op: Op)
    requires Inv(SampleWorld(), d) && v != ""
    requires VersionChangeAllowed(SampleWorld(), Stored(SampleWorld(), d).current, v, false)
    requires
      var s := Recorded(SampleWorld(), Stored(SampleWorld(), d), v, SampleBinary(v), 0);
      s.versions.Keys - Survivors(s, 1) == {prior}
    ensures op.Install? && op.version == v && op.removed == [prior]
    ensures Feasible(SampleWorld(), d, op) && Commits(SampleWorld(), d, op)
            && Decide(SampleWorld(), d, op).target == v
  {
    hide Survivors, Pruned, Decide, Feasible, Recorded, HasOld, Inv, ReadState, VersionChangeAllowed;
    op := SomeInstall(d, v, 1, [prior]);
    SampleCommits(d, op);
  }

  lemma UpdateKeepingOne(d: Disk) returns (op: Op)
    requires HasOld(d) && Inv(SampleWorld(), d)
    ensures op.Install? && op.version == NEW && op.removed == [OLD]
    ensures Feasible(SampleWorld(), d, op) && Commits(SampleWorld(), d, op)
            && Decide(SampleWorld(), d, op).target == NEW
  {
    UpdatedRecord(d);
    hide *;
    op := SomeUpdate(d, NEW, OLD);
  }

  lemma OnlyCurrentIsKept(s: State)
    requires s.current in s.versions
    ensures Survivors(s, 1) == {s.current}
  {
    assert Pinned(s, 1) == {s.current} && Granted(Budget(s, 1)) == 0;
  }

  lemma CutUpdateIsRecorded(d: Disk, op: Op)
    requires Inv(SampleWorld(), d) && Feasible(SampleWorld(), d, op) && Commits(SampleWorld(), d, op)
    requires Decide(SampleWorld(), d, op).target == NEW
    ensures SwitchAt(op) + 6 <= |Steps(SampleWorld(), d, op)|
    ensures
      var w, c := SampleWorld(), Cut(SampleWorld(), d, op, SwitchAt(op) + 6);
      Inv(w, c) && Stored(w, c).current == NEW
  {
    var w := SampleWorld();
    hide Cut, Steps, Decide, Feasible;
    LastCallIsBehindSwitch(w, d, op);
    CutKeepsInv(w, d, op, SwitchAt(op) + 6);
    SwitchIsAtomic(w, d, op, SwitchAt(op) + 6);
    CommittedStateOk(w, d, op);
  }

  lemma CutUpdateOrphans(d: Disk, op: Op)
    requires OLD in d.versions && Inv(SampleWorld(), d) && op.Install? && op.removed == [OLD]
    requires Feasible(SampleWorld(), d, op) && Commits(SampleWorld(), d, op)
    requires SwitchAt(op) + 6 <= |Steps(SampleWorld(), d, op)|
    ensures Inv(SampleWorld(), Cut(SampleWorld(), d, op, SwitchAt(op) + 6))
    ensures Orphan(SampleWorld(), Cut(SampleWorld(), d, op, SwitchAt(op) + 6), OLD)
  {
    var w := SampleWorld();
    var k := SwitchAt(op) + 6;
    hide Cut, Steps, Decide, Feasible, Orphan, Inv, ReadState;
    CutPruneLeavesOrphans(w, d, op, k);
    InvReads(w, Cut(w, d, op, k));
    assert op.removed[0] == OLD && !PruneDone(d, op, k);
    var orphan :| orphan in op.removed && Orphan(w, Cut(w, d, op, k), orphan);
  }

  /** An update that keeps one version, cut behind the state write: the old directory is left without a record. */
  lemma CutPruneLeavesAnOrphan() returns (es: seq<Event>)
    ensures PossibleRun(SampleWorld(), EMPTY, es)
    ensures
      var w, d := SampleWorld(), After(SampleWorld(), EMPTY, es);
      Inv(w, d) && Stored(w, d).current == NEW && Orphan(w, d, OLD)
  {
    hide Full, Cut, Steps, Decide, Feasible, Orphan, Inv, ReadState, PossibleRun, After, HasOld;
    var run := OldInstalled(1);
    var d := After(SampleWorld(), EMPTY, run);
    var op := UpdateKeepingOne(d);
    CutUpdateIsRecorded(d, op);
    OldIsThere(d);
    CutUpdateOrphans(d, op);
    var e := Event(op, SwitchAt(op) + 6);
    Concurrency.AppendEvent(SampleWorld(), run, e);
    es := run + [e];
  }

  // ---------------------------------------------------------------------
  // The agent
  // ---------------------------------------------------------------------

  const ANSWERS := Protocol.Capabilities("10", Protocol.Supports("i"), Protocol.Supports("s"))

  /** The same binary all the time, whose first probe fails. */
  function Flaky(): Agent.World {
    Agent.World((i: Agent.Installation) => Some("x"),
                (i: Agent.Installation) => if i == 0 then Agent.ProbeFailed(None) else Agent.Probed(ANSWERS),
                (i: Agent.Installation, argv: seq<string>) => Agent.Output([], true, false),
                LocalSpectra.Files((s: string) => None, (p: LocalSpectra.Path) => None))
  }

  function Snapshot(i: Agent.Installation): CapabilityCache.Call {
    CapabilityCache.Call(Protocol.Request("r", Protocol.SnapshotCreate, None, None, Some(false)),
        Agent.Moments(i, i, i, false, false, false))
  }

  /** One failed probe refuses later requests that an agent without a cache would answer. */
  lemma FailedProbeIsSticky()
    ensures
      var cfg := Agent.Config(true, true, "/s", [], true, false);
      var calls := [Snapshot(0), Snapshot(1)];
      && CapabilityCache.Answer(Flaky(), cfg, calls, 1).response.outcome
         == Protocol.Failed(Protocol.IncompatibleSpectra)
      && CapabilityCache.Fresh(Flaky(), cfg, calls[1]).response.outcome.Diagnostic?
  {
    var cfg := Agent.Config(true, true, "/s", [], true, false);
    var calls := [Snapshot(0), Snapshot(1)];
    assert calls[..1] == [Snapshot(0)] && calls[..1][..0] == [];
    assert IsAbs("/s") by { assert "/s"[..1] == "/"; }
    assert CapabilityCache.CacheAfterCalls(Flaky(), cfg, []) == Agent.NOTHING_CACHED;
    assert CapabilityCache.CacheAfterCalls(Flaky(), cfg, calls[..1]) == Agent.Cache(true, "x", Agent.ProbeFailed(None));
  }

  // ---------------------------------------------------------------------
  // The LaunchAgent
  // ---------------------------------------------------------------------

  function SampleOptions(hostname: string, cap: FlagSet.Duration): LaunchAgent.Options {
    LaunchAgent.Options("/p", "/s", "", hostname, "/d", "/a", 1, cap, false, false, false, [], [], [], [])
  }

  lemma SampleOptionsAreValid(hostname: string, cap: FlagSet.Duration, maxTimeoutMS: int)
    requires hostname != "" && hostname[0] == 'h'
    requires 0 < cap <= maxTimeoutMS * LaunchAgent.MILLISECOND && cap < LaunchAgent.DEFAULT_SESSION_TIMEOUT
    ensures LaunchAgent.Validate(SampleOptions(hostname, cap), maxTimeoutMS)
  {
    assert "/p"[..1] == "/" && "/s"[..1] == "/" && "/d"[..1] == "/" && "/a"[..1] == "/";
    AgentCommand.TrimsToNothingIff(hostname);
    assert hostname[0] in hostname && !IsSpace('h');
  }

  lemma SampleIsXml()
    ensures Plist.AllXml("h\rx")
  {
  }

  lemma SampleReadsAs()
    ensures Plist.Normalize("h\rx") == "h\nx"
  {
    assert "h\rx"[1..] == "\rx" && "\rx"[1..] == "x" && "x"[1..] == "";
  }

  /** A validated host name with a carriage return comes up with a newline instead. */
  lemma ReturnBecomesNewline(go: FlagSet.Syntax, host: AgentCommand.Host, maxTimeoutMS: int, out: string, err: string)
    requires FlagSet.SyntaxOk(go) && AgentCommand.DurationsAreClean(go) && Plist.AllXml(out) && Plist.AllXml(err)
    requires host.stateDir.Some? && host.auditLog.Some? && 1 <= maxTimeoutMS
    ensures
      var o := SampleOptions("h\rx", LaunchAgent.MILLISECOND);
      var doc := Plist.Document(Plist.Job(LaunchAgent.Arguments(go, o), out, err));
      var launched := AgentCommand.Launch(go, host, maxTimeoutMS, doc);
      && LaunchAgent.Validate(o, maxTimeoutMS)
      && launched.Some? && launched.value.settings.hostname == "h\nx"
  {
    var o := SampleOptions("h\rx", LaunchAgent.MILLISECOND);
    SampleIsXml();
    hide Plist.AllXml;
    SampleOptionsAreValid("h\rx", LaunchAgent.MILLISECOND, maxTimeoutMS);
    SampleOptionsAreXml("h\rx", LaunchAgent.MILLISECOND);
    SampleReadsAs();
    hide AgentCommand.Launch, Plist.Document, LaunchAgent.Arguments, Plist.Normalize, AgentCommand.OptionsAreXml,
        LaunchAgent.Validate;
    AgentCommand.LaunchNormalizes(go, host, maxTimeoutMS, o, out, err);
  }

  lemma SampleOptionsAreXml(hostname: string, cap: FlagSet.Duration)
    ensures AgentCommand.OptionsAreXml(SampleOptions(hostname, cap)) <==> Plist.AllXml(hostname)
  {
  }

  lemma ControlIsNoXml()
    ensures !Plist.AllXml("h\U{0001}")
  {
    var s := "h\U{0001}";
    assert s[1] in s && !Plist.IsXmlChar(s[1]);
  }

  /** A validated host name with a control character never comes up. */
  lemma ControlCharacterNeverStarts(go: FlagSet.Syntax, host: AgentCommand.Host, maxTimeoutMS: int, out: string,
                                    err: string)
    requires FlagSet.SyntaxOk(go) && AgentCommand.DurationsAreClean(go) && Plist.AllXml(out) && Plist.AllXml(err)
    requires host.stateDir.Some? && host.auditLog.Some? && 1 <= maxTimeoutMS
    ensures
      var o := SampleOptions("h\U{0001}", LaunchAgent.MILLISECOND);
      var doc := Plist.Document(Plist.Job(LaunchAgent.Arguments(go, o), out, err));
      LaunchAgent.Validate(o, maxTimeoutMS) && AgentCommand.Launch(go, host, maxTimeoutMS, doc).None?
  {
    var o := SampleOptions("h\U{0001}", LaunchAgent.MILLISECOND);
    SampleOptionsAreValid("h\U{0001}", LaunchAgent.MILLISECOND, maxTimeoutMS);
    SampleOptionsAreXml("h\U{0001}", LaunchAgent.MILLISECOND);
    ControlIsNoXml();
    hide AgentCommand.Launch, Plist.Document, LaunchAgent.Arguments, AgentCommand.OptionsAreXml, LaunchAgent.Validate,
        Plist.AllXml;
    AgentCommand.LaunchNormalizes(go, host, maxTimeoutMS, o, out, err);
  }

  /** A validated cap of half a millisecond gives every request twice that. */
  lemma ShortCapIsExceeded(maxTimeoutMS: int)
    requires 1 <= maxTimeoutMS
    ensures
      var o := SampleOptions("h", 500_000);
      LaunchAgent.Validate(o, maxTimeoutMS)
          && AgentCommand.RequestTimeout(o.maxRunDuration, maxTimeoutMS, 0) == 2 * o.maxRunDuration
  {
    SampleOptionsAreValid("h", 500_000, maxTimeoutMS);
  }
}
