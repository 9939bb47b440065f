// What every run of install, update and rollback keeps, when each may be cut after any call.
module CrashSafety {
  import opened Common
  import opened Prune
  import opened Disk
  import opened Plans

  // ---------------------------------------------------------------------
  // Atomicity of the switch
  // ---------------------------------------------------------------------

  /** state.json and the link are each old or new at every cut, and a new state.json implies the new link. */
  lemma SwitchIsAtomic(w: World, d: Disk, op: Op, k: nat)
    requires Feasible(w, d, op) && k <= |Steps(w, d, op)|
    ensures
      var c := Cut(w, d, op, k);
      if !Commits(w, d, op) then c.link == d.link && c.stateFile == d.stateFile && c.versions == d.versions
      else
        var v, s := Decide(w, d, op).target, Decide(w, d, op).state;
        var n := SwitchAt(op);
        && (k < n + 3 ==> c.link == d.link && c.stateFile == d.stateFile)
        && (n + 3 <= k < n + 6 ==> c.link == Some(v) && c.stateFile == d.stateFile)
        && (n + 6 <= k ==> c.link == Some(v) && c.stateFile == Saved(STATE_SCHEMA, s))
  {
    DiskAtCut(w, d, op, k);
  }

  // ---------------------------------------------------------------------
  // The invariant of every reachable disk
  // ---------------------------------------------------------------------

  /** Some binary that passed both gates for v has the recorded digest. */
  ghost predicate Attested(w: World, v: string, info: VersionInfo) {
    exists b :: w.vetted(v, b) && w.digest(b) == info.sha256
  }

  ghost predicate StateOk(w: World, s: State) {
    && ReadState(w, Saved(STATE_SCHEMA, s)) == Ok(s)
    && (s.previous != "" ==> s.current != "" && s.previous != s.current)
    && (forall v :: v in s.versions ==> Attested(w, v, s.versions[v]))
  }

  ghost predicate Inv(w: World, d: Disk) {
    && ReadState(w, d.stateFile).Ok?
    && StateOk(w, ReadState(w, d.stateFile).value)
    && (forall v :: v in d.versions && d.versions[v].Some? ==> w.vetted(v, d.versions[v].value))
  }

  function Stored(w: World, d: Disk): State
    requires ReadState(w, d.stateFile).Ok?
  {
    ReadState(w, d.stateFile).value
  }

  lemma SameInstallationKeepsInv(w: World, a: Disk, b: Disk)
    requires SameInstallation(a, b) && Inv(w, b)
    ensures Inv(w, a)
  {
  }

  lemma PrunedOk(w: World, s: State, keep: int)
    requires StateOk(w, s) && s.current in s.versions
    ensures StateOk(w, Pruned(s, keep))
    ensures Pruned(s, keep).current == s.current && s.current in Pruned(s, keep).versions
  {
    PruneKeepsPinned(s, keep);
  }

  lemma CommittedStateOk(w: World, d: Disk, op: Op)
    requires Inv(w, d) && !w.valid("") && Feasible(w, d, op) && Commits(w, d, op)
    ensures StateOk(w, Decide(w, d, op).state)
    ensures Decide(w, d, op).state.current == Decide(w, d, op).target
  {
    var s := Stored(w, d);
    if op.Install? {
      PrunedOk(w, Recorded(w, s, op.version, op.binary, op.now), op.keep);
    }
  }

  lemma CutKeepsInv(w: World, d: Disk, op: Op, k: nat)
    requires Inv(w, d) && !w.valid("") && Feasible(w, d, op) && k <= |Steps(w, d, op)|
    ensures Inv(w, Cut(w, d, op, k))
  {
    DiskAtCut(w, d, op, k);
    if Commits(w, d, op) {
      CommittedStateOk(w, d, op);
    }
    var vs := VersionsAt(w, d, op, k);
    forall v | v in vs && vs[v].Some? ensures w.vetted(v, vs[v].value) {
      VersionsAtOrigin(w, d, op, k, v);
    }
  }

  /** Every binary under versions/ after a cut was there before or is the one just installed. */
  lemma VersionsAtOrigin(w: World, d: Disk, op: Op, k: nat, v: string)
    requires v in VersionsAt(w, d, op, k) && VersionsAt(w, d, op, k)[v].Some?
    ensures (v in d.versions && VersionsAt(w, d, op, k)[v] == d.versions[v])
            || (op.Install? && Commits(w, d, op) && v == op.version && VersionsAt(w, d, op, k)[v] == Some(op.binary))
  {
  }

  lemma FullIsCut(w: World, d: Disk, op: Op)
    ensures Full(w, d, op) == Cut(w, d, op, |Steps(w, d, op)|)
  {
    var steps := Steps(w, d, op);
    assert steps[..|steps|] == steps;
  }

  // ---------------------------------------------------------------------
  // Runs
  // ---------------------------------------------------------------------

  // One attempted operation: its calls take effect up to a cut (all of them when it completes).
  datatype Event = Event(op: Op, cut: nat)

  ghost predicate Possible(w: World, d: Disk, e: Event) {
    Feasible(w, d, e.op) && e.cut <= |Steps(w, d, e.op)|
  }

  ghost predicate PossibleRun(w: World, d: Disk, es: seq<Event>) {
    es == [] || (
      && PossibleRun(w, d, es[..|es| - 1])
      && Possible(w, After(w, d, es[..|es| - 1]), es[|es| - 1]))
  }

  function After(w: World, d: Disk, es: seq<Event>): Disk {
    if es == [] then d else
      var e := es[|es| - 1];
      Cut(w, After(w, d, es[..|es| - 1]), e.op, e.cut)
  }

  /** Whole-run safety: the invariant holds after every run with crashes and retries from an empty root. */
  lemma {:induction false} EveryRunKeepsInv(w: World, es: seq<Event>)
    requires !w.valid("") && PossibleRun(w, EMPTY, es)
    ensures Inv(w, After(w, EMPTY, es))
  {
    if es != [] {
      var e := es[|es| - 1];
      EveryRunKeepsInv(w, es[..|es| - 1]);
      CutKeepsInv(w, After(w, EMPTY, es[..|es| - 1]), e.op, e.cut);
    }
  }

  // ---------------------------------------------------------------------
  // Current only goes down by rollback
  // ---------------------------------------------------------------------

  lemma InstallNeverDowngrades(w: World, d: Disk, op: Op, k: nat)
    requires Inv(w, d) && !w.valid("") && Feasible(w, d, op) && op.Install? && k <= |Steps(w, d, op)|
    ensures Inv(w, Cut(w, d, op, k))
    ensures
      var before, after := Stored(w, d).current, Stored(w, Cut(w, d, op, k)).current;
      && (before != "" ==> after != "" && w.rank(after) >= w.rank(before))
      && (op.update && before != "" && after != before ==> w.rank(after) > w.rank(before))
  {
    CutKeepsInv(w, d, op, k);
    DiskAtCut(w, d, op, k);
    if Commits(w, d, op) {
      CommittedStateOk(w, d, op);
    }
  }

  lemma {:induction false} CurrentFallsOnlyByRollback(w: World, d: Disk, es: seq<Event>)
    requires Inv(w, d) && !w.valid("") && PossibleRun(w, d, es)
    requires Stored(w, d).current != ""
    requires forall e :: e in es ==> e.op.Install?
    ensures Inv(w, After(w, d, es))
    ensures Stored(w, After(w, d, es)).current != ""
    ensures w.rank(Stored(w, After(w, d, es)).current) >= w.rank(Stored(w, d).current)
  {
    if es != [] {
      CurrentFallsOnlyByRollback(w, d, es[..|es| - 1]);
      var e := es[|es| - 1];
      InstallNeverDowngrades(w, After(w, d, es[..|es| - 1]), e.op, e.cut);
    }
  }

  // ---------------------------------------------------------------------
  // The link and the recorded versions stay usable, except after one exact cut
  // ---------------------------------------------------------------------

  predicate HasBinary(d: Disk, v: string) {
    v in d.versions && d.versions[v].Some?
  }

  /** current is absent or leads to a binary. */
  predicate LinkResolves(d: Disk) {
    d.link.Some? ==> HasBinary(d, d.link.value)
  }

  /** Every version in state.json still has its binary. */
  predicate Complete(w: World, d: Disk)
    requires ReadState(w, d.stateFile).Ok?
  {
    forall v :: v in Stored(w, d).versions ==> HasBinary(d, v)
  }

  /** The cut falls between the backup rename and the candidate rename of an install of v. */
  predicate BetweenRenames(w: World, d: Disk, op: Op, k: nat, v: string) {
    op.Install? && Commits(w, d, op) && op.version == v && k == SwitchAt(op) - 1
  }

  lemma InstalledIsNotPruned(w: World, d: Disk, op: Op)
    requires Inv(w, d) && Feasible(w, d, op) && op.Install? && Commits(w, d, op)
    ensures op.version !in op.removed
  {
    PruneKeepsPinned(Recorded(w, Stored(w, d), op.version, op.binary, op.now), op.keep);
    assert op.version !in PruneList(w, d, op);
  }

  lemma InstallCutAt(w: World, d: Disk, op: Op, k: nat, v: string)
    requires Inv(w, d) && Feasible(w, d, op) && op.Install? && Commits(w, d, op) && k <= |Steps(w, d, op)|
    ensures v == op.version && k >= SwitchAt(op) ==> HasBinary(Cut(w, d, op, k), v)
    ensures v != op.version && HasBinary(d, v) && (k > SwitchAt(op) + 6 ==> v !in op.removed)
            ==> HasBinary(Cut(w, d, op, k), v)
    ensures op.version !in op.removed
    ensures k < SwitchAt(op) - 1 ==> Cut(w, d, op, k).versions == d.versions
  {
    hide Decide, Cut, Steps, Inv, Feasible, Run, Commits;
    DiskAtCut(w, d, op, k);
    InstalledIsNotPruned(w, d, op);
  }

  lemma LinkBreaksExactlyBetweenRenames(w: World, d: Disk, op: Op, k: nat)
    requires Inv(w, d) && !w.valid("") && LinkResolves(d) && Feasible(w, d, op) && k <= |Steps(w, d, op)|
    ensures !LinkResolves(Cut(w, d, op, k)) <==> d.link.Some? && BetweenRenames(w, d, op, k, d.link.value)
  {
    DiskAtCut(w, d, op, k);
    if op.Install? && Commits(w, d, op) {
      InstallCutAt(w, d, op, k, op.version);
      if d.link.Some? { InstallCutAt(w, d, op, k, d.link.value); }
    }
  }

  lemma OldRecordsSurvive(w: World, d: Disk, op: Op, k: nat, v: string)
    requires Inv(w, d) && Complete(w, d) && Feasible(w, d, op) && k <= |Steps(w, d, op)|
    requires v in Stored(w, d).versions && !BetweenRenames(w, d, op, k, v)
    requires Commits(w, d, op) ==> k < SwitchAt(op) + 6
    ensures HasBinary(Cut(w, d, op, k), v)
  {
    if op.Install? && Commits(w, d, op) {
      InstallCutAt(w, d, op, k, v);
    } else {
      DiskAtCut(w, d, op, k);
    }
  }

  lemma NewRecordsAreThere(w: World, d: Disk, op: Op, k: nat, v: string)
    requires Inv(w, d) && Complete(w, d) && Feasible(w, d, op) && k <= |Steps(w, d, op)|
    requires Commits(w, d, op) && k >= SwitchAt(op) + 6
    requires v in Decide(w, d, op).state.versions
    ensures HasBinary(Cut(w, d, op, k), v)
  {
    if op.Install? {
      InstallCutAt(w, d, op, k, v);
      assert v !in PruneList(w, d, op);
    } else {
      assert v in Stored(w, d).versions;
      DiskAtCut(w, d, op, k);
    }
  }

  lemma RecordsBreakExactlyBetweenRenames(w: World, d: Disk, op: Op, k: nat)
    requires Inv(w, d) && !w.valid("") && Complete(w, d) && Feasible(w, d, op) && k <= |Steps(w, d, op)|
    ensures Inv(w, Cut(w, d, op, k))
    ensures !Complete(w, Cut(w, d, op, k))
            <==> exists v :: v in Stored(w, d).versions && BetweenRenames(w, d, op, k, v)
  {
    CutKeepsInv(w, d, op, k);
    SwitchIsAtomic(w, d, op, k);
    var c := Cut(w, d, op, k);
    if Commits(w, d, op) && k >= SwitchAt(op) + 6 {
      CommittedStateOk(w, d, op);
      forall v | v in Stored(w, c).versions ensures HasBinary(c, v) { NewRecordsAreThere(w, d, op, k, v); }
    } else {
      assert Stored(w, c) == Stored(w, d);
      forall v | v in Stored(w, d).versions
        ensures HasBinary(c, v) <==> !BetweenRenames(w, d, op, k, v)
      {
        if BetweenRenames(w, d, op, k, v) {
          DiskAtCut(w, d, op, k);
        } else {
          OldRecordsSurvive(w, d, op, k, v);
        }
      }
    }
  }

  // ---------------------------------------------------------------------
  // Which crashes still show: the history of every link and every recorded version
  // ---------------------------------------------------------------------

  /** The event got as far as publishing a binary of v. */
  predicate Publishes(w: World, d: Disk, e: Event, v: string) {
    e.op.Install? && Commits(w, d, e.op) && e.op.version == v && e.cut >= SwitchAt(e.op)
  }

  /** The event took v away between its two renames. */
  predicate TakesAway(w: World, d: Disk, e: Event, v: string) {
    BetweenRenames(w, d, e.op, e.cut, v)
  }

  /** The event switched the link. */
  predicate Switches(w: World, d: Disk, e: Event) {
    Commits(w, d, e.op) && e.cut >= SwitchAt(e.op) + 3
  }

  /** Some event took v away and no later one of the run published it again. */
  ghost predicate StillAway(w: World, es: seq<Event>, v: string) {
    exists i :: 0 <= i < |es| && TakesAway(w, After(w, EMPTY, es[..i]), es[i], v) && NotPublishedSince(w, es, i + 1, v)
  }

  ghost predicate NotPublishedSince(w: World, es: seq<Event>, i: nat, v: string) {
    forall j :: i <= j < |es| ==> !Publishes(w, After(w, EMPTY, es[..j]), es[j], v)
  }

  /** StillAway, one event at a time. */
  lemma StillAwayStep(w: World, es: seq<Event>, v: string)
    requires es != []
    ensures
      var front, e := es[..|es| - 1], es[|es| - 1];
      var d := After(w, EMPTY, front);
      StillAway(w, es, v) <==> TakesAway(w, d, e, v) || (StillAway(w, front, v) && !Publishes(w, d, e, v))
  {
    hide After, TakesAway, Publishes;
    var n := |es| - 1;
    var front, e := es[..n], es[n];
    forall i | 0 <= i <= n ensures es[..i] == front[..i] {}
    assert front[..n] == front;
    if StillAway(w, es, v) {
      var i :| 0 <= i < |es| && TakesAway(w, After(w, EMPTY, es[..i]), es[i], v) && NotPublishedSince(w, es, i + 1, v);
      if i < n {
        assert TakesAway(w, After(w, EMPTY, front[..i]), front[i], v);
        assert NotPublishedSince(w, front, i + 1, v) by {
          assert forall j :: i + 1 <= j < n ==> es[j] == front[j] && es[..j] == front[..j];
        }
      }
    }
    if TakesAway(w, After(w, EMPTY, front), e, v) {
      assert TakesAway(w, After(w, EMPTY, es[..n]), es[n], v) && NotPublishedSince(w, es, n + 1, v);
    } else if StillAway(w, front, v) && !Publishes(w, After(w, EMPTY, front), e, v) {
      var i :| 0 <= i < n && TakesAway(w, After(w, EMPTY, front[..i]), front[i], v)
          && NotPublishedSince(w, front, i + 1, v);
      assert TakesAway(w, After(w, EMPTY, es[..i]), es[i], v);
      assert NotPublishedSince(w, es, i + 1, v);
    }
  }

  /** What a commit records was recorded before or is just installed, and is not pruned. */
  lemma CommitRecords(w: World, d: Disk, op: Op, v: string)
    requires Inv(w, d) && Feasible(w, d, op) && Commits(w, d, op) && v in Decide(w, d, op).state.versions
    ensures v in Stored(w, d).versions || (op.Install? && v == op.version)
    ensures op.Install? ==> v !in op.removed
  {
    if op.Install? {
      assert v !in PruneList(w, d, op);
    }
  }

  /** One event and one version: taken away, published, or as before, if it is still recorded afterwards. */
  lemma RecordedBinaryAfter(w: World, d: Disk, e: Event, v: string)
    requires Inv(w, d) && !w.valid("") && Possible(w, d, e)
    ensures Inv(w, Cut(w, d, e.op, e.cut))
    ensures
      var c := Cut(w, d, e.op, e.cut);
      v in Stored(w, c).versions ==>
        if TakesAway(w, d, e, v) then !HasBinary(c, v)
        else if Publishes(w, d, e, v) then HasBinary(c, v)
        else v in Stored(w, d).versions && (HasBinary(c, v) <==> HasBinary(d, v))
  {
    assert Feasible(w, d, e.op) && e.cut <= |Steps(w, d, e.op)|;
    CutKeepsInv(w, d, e.op, e.cut);
    InvReads(w, d);
    InvReads(w, Cut(w, d, e.op, e.cut));
    hide Decide, Survivors, Recorded, Cut, Steps, Inv, ReadState, Feasible, Run;
    DiskAtCut(w, d, e.op, e.cut);
    if Commits(w, d, e.op) {
      CommittedStateOk(w, d, e.op);
      if v in Decide(w, d, e.op).state.versions {
        CommitRecords(w, d, e.op, v);
      }
      if e.op.Install? {
        InstallCutAt(w, d, e.op, e.cut, v);
      }
    }
  }

  /** Over every run: a recorded version lacks its binary iff a crash between its renames was not made good since. */
  lemma {:induction false} RecordedVersionIsMissingIff(w: World, es: seq<Event>, v: string)
    requires !w.valid("") && PossibleRun(w, EMPTY, es)
    ensures Inv(w, After(w, EMPTY, es))
    ensures v in Stored(w, After(w, EMPTY, es)).versions ==>
              (!HasBinary(After(w, EMPTY, es), v) <==> StillAway(w, es, v))
  {
    if es != [] {
      var front, e := es[..|es| - 1], es[|es| - 1];
      RecordedVersionIsMissingIff(w, front, v);
      RecordedBinaryAfter(w, After(w, EMPTY, front), e, v);
      StillAwayStep(w, es, v);
    }
  }

  /** Some event took the linked version away and no later one published it again or switched the link. */
  ghost predicate LinkStillBroken(w: World, es: seq<Event>) {
    exists i :: 0 <= i < |es| && BreaksLink(w, After(w, EMPTY, es[..i]), es[i]) && NotMendedSince(w, es, i + 1)
  }

  predicate BreaksLink(w: World, d: Disk, e: Event) {
    d.link.Some? && TakesAway(w, d, e, d.link.value)
  }

  predicate MendsLink(w: World, d: Disk, e: Event) {
    Switches(w, d, e) || (d.link.Some? && Publishes(w, d, e, d.link.value))
  }

  ghost predicate NotMendedSince(w: World, es: seq<Event>, i: nat) {
    forall j :: i <= j < |es| ==> !MendsLink(w, After(w, EMPTY, es[..j]), es[j])
  }

  lemma LinkStillBrokenStep(w: World, es: seq<Event>)
    requires es != []
    ensures
      var front, e := es[..|es| - 1], es[|es| - 1];
      var d := After(w, EMPTY, front);
      LinkStillBroken(w, es) <==> BreaksLink(w, d, e) || (LinkStillBroken(w, front) && !MendsLink(w, d, e))
  {
    hide After, BreaksLink, MendsLink;
    var n := |es| - 1;
    var front, e := es[..n], es[n];
    forall i | 0 <= i <= n ensures es[..i] == front[..i] {}
    assert front[..n] == front;
    if LinkStillBroken(w, es) {
      var i :| 0 <= i < |es| && BreaksLink(w, After(w, EMPTY, es[..i]), es[i]) && NotMendedSince(w, es, i + 1);
      if i < n {
        assert BreaksLink(w, After(w, EMPTY, front[..i]), front[i]);
        assert NotMendedSince(w, front, i + 1) by {
          assert forall j :: i + 1 <= j < n ==> es[j] == front[j] && es[..j] == front[..j];
        }
      }
    }
    if BreaksLink(w, After(w, EMPTY, front), e) {
      assert BreaksLink(w, After(w, EMPTY, es[..n]), es[n]) && NotMendedSince(w, es, n + 1);
    } else if LinkStillBroken(w, front) && !MendsLink(w, After(w, EMPTY, front), e) {
      var i :| 0 <= i < n && BreaksLink(w, After(w, EMPTY, front[..i]), front[i]) && NotMendedSince(w, front, i + 1);
      assert BreaksLink(w, After(w, EMPTY, es[..i]), es[i]);
      assert NotMendedSince(w, es, i + 1);
    }
  }

  /** One event and the link: broken, mended, or resolving as before. */
  lemma LinkAfter(w: World, d: Disk, e: Event)
    requires Inv(w, d) && !w.valid("") && Possible(w, d, e)
    ensures
      var c := Cut(w, d, e.op, e.cut);
      if BreaksLink(w, d, e) then !LinkResolves(c)
      else if MendsLink(w, d, e) then LinkResolves(c)
      else LinkResolves(c) <==> LinkResolves(d)
  {
    DiskAtCut(w, d, e.op, e.cut);
    if Commits(w, d, e.op) && e.op.Install? {
      InstallCutAt(w, d, e.op, e.cut, e.op.version);
      if d.link.Some? { InstallCutAt(w, d, e.op, e.cut, d.link.value); }
    }
  }

  /**
   * Link safety over every run: the link dangles iff the last crash that broke it was not followed by a mending
   * event.
   */
  lemma {:induction false} LinkDanglesIff(w: World, es: seq<Event>)
    requires !w.valid("") && PossibleRun(w, EMPTY, es)
    ensures !LinkResolves(After(w, EMPTY, es)) <==> LinkStillBroken(w, es)
  {
    if es != [] {
      var front, e := es[..|es| - 1], es[|es| - 1];
      LinkDanglesIff(w, front);
      EveryRunKeepsInv(w, front);
      LinkAfter(w, After(w, EMPTY, front), e);
      LinkStillBrokenStep(w, es);
    }
  }

  /** Over every run: link and records are usable iff no crash between two renames still shows in either. */
  lemma RootIsUsableIff(w: World, es: seq<Event>)
    requires !w.valid("") && PossibleRun(w, EMPTY, es)
    ensures Inv(w, After(w, EMPTY, es))
    ensures
      var d := After(w, EMPTY, es);
      LinkResolves(d) && Complete(w, d) <==>
        !LinkStillBroken(w, es) && forall v :: v in Stored(w, d).versions ==> !StillAway(w, es, v)
  {
    hide LinkStillBroken, StillAway, After, PossibleRun, Inv;
    EveryRunKeepsInv(w, es);
    LinkDanglesIff(w, es);
    var d := After(w, EMPTY, es);
    assert ReadState(w, d.stateFile).Ok? by { RecordedVersionIsMissingIff(w, es, ""); InvReads(w, d); }
    forall v | v in Stored(w, d).versions ensures HasBinary(d, v) <==> !StillAway(w, es, v) {
      RecordedVersionIsMissingIff(w, es, v);
    }
  }

  lemma InvReads(w: World, d: Disk)
    requires Inv(w, d)
    ensures ReadState(w, d.stateFile).Ok?
  {
  }

  // ---------------------------------------------------------------------
  // Digests, rollback targets and drift
  // ---------------------------------------------------------------------

  /** One version stands for one byte string. */
  ghost predicate SingleBinary(w: World) {
    forall v, b, c :: w.vetted(v, b) && w.vetted(v, c) ==> b == c
  }

  /** Binaries of different versions have different digests. */
  ghost predicate DistinctDigests(w: World) {
    forall u, v, b, c :: w.vetted(u, b) && w.vetted(v, c) && w.digest(b) == w.digest(c) ==> u == v
  }

  lemma RecordedDigestsMatch(w: World, d: Disk, v: string)
    requires Inv(w, d) && SingleBinary(w) && HasBinary(d, v) && v in Stored(w, d).versions
    ensures w.digest(d.versions[v].value) == Stored(w, d).versions[v].sha256
  {
    var b :| w.vetted(v, b) && w.digest(b) == Stored(w, d).versions[v].sha256;
    assert b == d.versions[v].value;
  }

  /** Over every run, a recorded previous version can be rolled back to iff no crash has left it without its binary. */
  lemma RollbackIsAvailable(w: World, es: seq<Event>)
    requires !w.valid("") && SingleBinary(w) && PossibleRun(w, EMPTY, es)
    requires forall v, b :: w.vetted(v, b) ==> w.fits(v, b)
    ensures
      var d := After(w, EMPTY, es);
      && Inv(w, d)
      && (RollbackAllowed(w, d, Stored(w, d)) <==>
          Stored(w, d).previous != "" && !StillAway(w, es, Stored(w, d).previous))
  {
    EveryRunKeepsInv(w, es);
    var d := After(w, EMPTY, es);
    var s := Stored(w, d);
    if s.previous != "" {
      RecordedVersionIsMissingIff(w, es, s.previous);
      if HasBinary(d, s.previous) {
        RecordedDigestsMatch(w, d, s.previous);
      }
    }
  }

  datatype Report = Report(current: string, previous: string, versions: Metadata, drift: bool)

  /**
   * Status takes no lock: it reads state.json, and later (on a root that another operation may have changed
   * meanwhile) the binary behind the link, which it compares with the digest recorded for the current version.
   */
  function Status(w: World, d: Disk, later: Disk): Result<Report, ReadError> {
    match ReadState(w, d.stateFile)
    case Err(e) => Err(e)
    case Ok(s) =>
      var unreadable := later.link.None? || !HasBinary(later, later.link.value);
      Ok(Report(s.current, s.previous, s.versions,
                s.current != "" && (unreadable || s.current !in s.versions
                                    || w.digest(later.versions[later.link.value].value)
                                       != s.versions[s.current].sha256)))
  }

  /**
   * Status reports drift exactly when the state it read has a current version and the link it met later does not
   * lead to that version's binary.
   */
  lemma DriftIsExact(w: World, d: Disk, later: Disk)
    requires Inv(w, d) && Inv(w, later) && SingleBinary(w) && DistinctDigests(w)
    ensures Status(w, d, later).Ok?
    ensures
      var r, s := Status(w, d, later).value, Stored(w, d);
      r.current == s.current && r.previous == s.previous && r.versions == s.versions
    ensures Status(w, d, later).value.drift
            <==> Stored(w, d).current != "" && (later.link != Some(Stored(w, d).current) || !LinkResolves(later))
  {
    var s := Stored(w, d);
    if s.current != "" && later.link.Some? && HasBinary(later, later.link.value) {
      var b := later.versions[later.link.value].value;
      var c :| w.vetted(s.current, c) && w.digest(c) == s.versions[s.current].sha256;
      assert w.vetted(later.link.value, b);
      assert w.digest(b) == w.digest(c) ==> later.link.value == s.current;
    }
  }

  /** From a healthy root, these are exactly the cuts after which Status reports drift. */
  lemma DriftAfterCutIsExact(w: World, d: Disk, op: Op, k: nat)
    requires Inv(w, d) && SingleBinary(w) && DistinctDigests(w) && !w.valid("")
    requires LinkResolves(d) && (Stored(w, d).current != "" ==> d.link == Some(Stored(w, d).current))
    requires Feasible(w, d, op) && k <= |Steps(w, d, op)|
    ensures Status(w, Cut(w, d, op, k), Cut(w, d, op, k)).Ok?
    ensures
      var c, current := Cut(w, d, op, k), Stored(w, d).current;
      Status(w, c, c).value.drift <==>
        && current != ""
        && Commits(w, d, op)
        && (|| BetweenRenames(w, d, op, k, current)
            || (SwitchAt(op) + 3 <= k < SwitchAt(op) + 6 && Decide(w, d, op).target != current))
  {
    CutKeepsInv(w, d, op, k);
    DriftIsExact(w, Cut(w, d, op, k), Cut(w, d, op, k));
    SwitchIsAtomic(w, d, op, k);
    LinkBreaksExactlyBetweenRenames(w, d, op, k);
    if Commits(w, d, op) {
      CommittedStateOk(w, d, op);
    }
  }
}
