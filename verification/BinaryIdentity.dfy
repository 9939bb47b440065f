// The identity the agent reads of the provisioned binary (internal/agent/local_spectra.go), over the roots that
// provisioning can produce: when can equal identities hide a different binary?
module BinaryIdentity {
  import opened Common
  import opened Disk
  import opened Plans
  import opened CrashSafety
  import FlagSet
  import Agent
  import LocalSpectra
  import CapabilityCache

  // What the agent meets at one moment: the root, maybe in the middle of an operation or after a crash, and the
  // modification time of the linked binary.
  datatype Moment = Moment(d: Disk, mtime: int)

  function Binary(d: Disk): Option<Bytes> {
    if d.link.Some? && HasBinary(d, d.link.value) then d.versions[d.link.value] else None
  }

  /** BinaryIdentity for <root>/current/spectra: resolved path, size and modification time. */
  function Identity(root: string, m: Moment): Option<string> {
    match Binary(m.d)
    case None => None
    case Some(b) => Some(Labelled(root + "/versions/" + m.d.link.value + "/spectra", |b|, m.mtime))
  }

  function Labelled(path: string, size: int, mtime: int): string {
    path + "|" + FlagSet.ShowInt(size) + "|" + FlagSet.ShowInt(mtime)
  }

  lemma ShownHasNoBar(n: int)
    ensures '|' !in FlagSet.ShowInt(n)
  {
  }

  lemma ShownIsInjective(a: int, b: int)
    requires FlagSet.ShowInt(a) == FlagSet.ShowInt(b)
    ensures a == b
  {
    FlagSet.NatRoundTrip(if a < 0 then -a else a);
    FlagSet.NatRoundTrip(if b < 0 then -b else b);
    var s, t := FlagSet.ShowInt(a), FlagSet.ShowInt(b);
    assert s[0] == t[0];
    assert a < 0 ==> s[0] == '-' && s[1..] == FlagSet.ShowNat(-a);
    assert b < 0 ==> t[0] == '-' && t[1..] == FlagSet.ShowNat(-b);
    assert a >= 0 ==> s[0] in s && FlagSet.IsDigit(s[0]);
    assert b >= 0 ==> t[0] in t && FlagSet.IsDigit(t[0]);
  }

  /** The last bar splits a text in one way only. */
  lemma LastBarSplits(x: string, y: string, u: string, v: string)
    requires x + "|" + y == u + "|" + v && '|' !in y && '|' !in v
    ensures x == u && y == v
  {
    var s := x + "|" + y;
    assert s[|x|] == '|' && s[|u|] == '|';
    assert s[..|x|] == x && s[|x| + 1..] == y;
    assert (u + "|" + v)[..|u|] == u && (u + "|" + v)[|u| + 1..] == v;
  }

  lemma LabelledIsInjective(p: string, m: int, s: int, q: string, n: int, t: int)
    requires Labelled(p, m, s) == Labelled(q, n, t)
    ensures p == q && m == n && s == t
  {
    hide FlagSet.ShowInt;
    ShownHasNoBar(m);
    ShownHasNoBar(n);
    ShownHasNoBar(s);
    ShownHasNoBar(t);
    LastBarSplits(p + "|" + FlagSet.ShowInt(m), FlagSet.ShowInt(s), q + "|" + FlagSet.ShowInt(n), FlagSet.ShowInt(t));
    LastBarSplits(p, FlagSet.ShowInt(m), q, FlagSet.ShowInt(n));
    ShownIsInjective(m, n);
    ShownIsInjective(s, t);
  }

  /** Same version behind the link, same size, same modification time. */
  predicate Alike(a: Moment, b: Moment) {
    && a.d.link == b.d.link
    && Binary(a.d).Some? && Binary(b.d).Some?
    && |Binary(a.d).value| == |Binary(b.d).value| && a.mtime == b.mtime
  }

  lemma SameIdentityIffAlike(root: string, a: Moment, b: Moment)
    requires Identity(root, a).Some?
    ensures Identity(root, a) == Identity(root, b) <==> Alike(a, b)
  {
    if Identity(root, a) == Identity(root, b) {
      var v, u := a.d.link.value, b.d.link.value;
      hide Labelled;
      LabelledIsInjective(root + "/versions/" + v + "/spectra", |Binary(a.d).value|, a.mtime,
                          root + "/versions/" + u + "/spectra", |Binary(b.d).value|, b.mtime);
      MiddleIsInjective(root + "/versions/", v, u, "/spectra");
    }
  }

  lemma MiddleIsInjective(before: string, v: string, u: string, after: string)
    requires before + v + after == before + u + after
    ensures v == u
  {
    assert (before + v + after)[|before|..|before| + |v|] == v;
    assert (before + u + after)[|before|..|before| + |u|] == u;
  }

  // The agent on a provisioned root, when a probe depends on the binary alone.
  datatype Setting = Setting(
    root: string, history: Agent.Installation -> Moment, probeOf: Bytes -> Agent.Probe,
    run: (Agent.Installation, seq<string>) -> Agent.RunResult, files: LocalSpectra.Files)

  function AgentWorld(s: Setting): Agent.World {
    Agent.World(
      (i: Agent.Installation) => Identity(s.root, s.history(i)),
      (i: Agent.Installation) => match Binary(s.history(i).d)
           case Some(b) => s.probeOf(b)
           case None => Agent.ProbeFailed(None),
      s.run, s.files)
  }

  lemma KeyIsNoAccident(s: Setting, i: Agent.Installation, j: Agent.Installation)
    ensures AgentWorld(s).identity(j) == Some(Agent.Key(AgentWorld(s), i)) <==>
              Alike(s.history(j), s.history(i))
  {
    var a, b := s.history(i), s.history(j);
    if Identity(s.root, b).Some? {
      SameIdentityIffAlike(s.root, b, a);
      if Identity(s.root, a).None? {
        assert Agent.Key(AgentWorld(s), i) == "";
      }
    }
  }

  /**
   * Equal identities imply equal probes, over any history, iff no two moments have different binaries of one version
   * with equal size and modification time that probe differently.
   */
  lemma HonestIff(s: Setting)
    ensures CapabilityCache.Honest(AgentWorld(s)) <==>
      forall i: Agent.Installation, j: Agent.Installation :: Alike(s.history(j), s.history(i)) ==>
        s.probeOf(Binary(s.history(i).d).value) == s.probeOf(Binary(s.history(j).d).value)
  {
    var w := AgentWorld(s);
    forall i: Agent.Installation, j: Agent.Installation
      ensures w.identity(j) == Some(Agent.Key(w, i)) <==> Alike(s.history(j), s.history(i))
      ensures Alike(s.history(j), s.history(i)) ==>
        w.probe(i) == s.probeOf(Binary(s.history(i).d).value) && w.probe(j) == s.probeOf(Binary(s.history(j).d).value)
    {
      KeyIsNoAccident(s, i, j);
    }
  }

  /** Provisioning can produce this root: some run, cut anywhere, ends in it. */
  ghost predicate Reachable(w: World, d: Disk) {
    exists es :: PossibleRun(w, EMPTY, es) && After(w, EMPTY, es) == d
  }

  /**
   * On roots that provisioning produces, cut anywhere, the identity is honest as long as a version stands for one byte
   * string. With CapabilityCache this makes the caching agent exact on a provisioned machine.
   */
  lemma ProvisionedIdentityIsHonest(w: World, s: Setting)
    requires !w.valid("") && SingleBinary(w)
    requires forall i: Agent.Installation :: Reachable(w, s.history(i).d)
    ensures CapabilityCache.Honest(AgentWorld(s))
  {
    HonestIff(s);
    forall i: Agent.Installation, j: Agent.Installation | Alike(s.history(j), s.history(i))
      ensures Binary(s.history(i).d) == Binary(s.history(j).d)
    {
      var d, e := s.history(i).d, s.history(j).d;
      ReachableBinaryIsVetted(w, d);
      ReachableBinaryIsVetted(w, e);
    }
  }

  /** The agent of a provisioned machine answers, records and runs what the agent that always probes does. */
  lemma ProvisionedAgentIsExact(w: World, s: Setting, cfg: Agent.Config, calls: seq<CapabilityCache.Call>, k: nat)
    requires !w.valid("") && SingleBinary(w)
    requires forall i: Agent.Installation :: Reachable(w, s.history(i).d)
    requires k < |calls| && forall i :: 0 <= i < |calls| ==> calls[i].m.identify == calls[i].m.probe
    ensures
      var h := CapabilityCache.Answer(AgentWorld(s), cfg, calls, k);
      var g := CapabilityCache.Fresh(AgentWorld(s), cfg, calls[k]);
      h.response == g.response && CapabilityCache.WithoutProbes(h.events) == CapabilityCache.WithoutProbes(g.events)
  {
    ProvisionedIdentityIsHonest(w, s);
    CapabilityCache.CachingRefinesProbing(AgentWorld(s), cfg, calls, k);
  }

  lemma ReachableBinaryIsVetted(w: World, d: Disk)
    requires !w.valid("") && Reachable(w, d) && Binary(d).Some?
    ensures w.vetted(d.link.value, Binary(d).value)
  {
    var es :| PossibleRun(w, EMPTY, es) && After(w, EMPTY, es) == d;
    EveryRunKeepsInv(w, es);
  }

  /**
   * Whatever provisioning does to the linked version, the agent sees: a different version never has an equal
   * identity.
   */
  lemma SwitchChangesIdentity(w: World, root: string, d: Disk, op: Op, k: nat, before: int, after: int)
    requires Inv(w, d) && !w.valid("") && LinkResolves(d) && d.link.Some? && Feasible(w, d, op)
             && k <= |Steps(w, d, op)|
    ensures
      var c := Cut(w, d, op, k);
      Identity(root, Moment(c, after)) == Identity(root, Moment(d, before)) <==>
        && c.link == d.link && LinkResolves(c)
        && |Binary(c).value| == |Binary(d).value| && after == before
    ensures
      var c := Cut(w, d, op, k);
      c.link == d.link && LinkResolves(c) && Binary(c) != Binary(d) ==>
        op.Install? && Commits(w, d, op) && d.link == Some(op.version) && Binary(c) == Some(op.binary)
  {
    SameIdentityIffAlike(root, Moment(d, before), Moment(Cut(w, d, op, k), after));
    DiskAtCut(w, d, op, k);
    if HasBinary(Cut(w, d, op, k), d.link.value) {
      VersionsAtOrigin(w, d, op, k, d.link.value);
    }
  }
}
