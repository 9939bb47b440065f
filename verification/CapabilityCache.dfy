// The capability cache against the agent that probes every time.
//
// Requests follow each other here; module Sessions derives the same for requests that overlap, whose loads are
// serialised by the agent's mutex. The binary may be swapped before, between and inside loads.
module CapabilityCache {
  import opened Common
  import opened Protocol
  import opened Agent

  // One call of loadCapabilities: what is installed when the identity is read and when the probe would run.
  datatype Load = Load(identify: Installation, probe: Installation, refresh: bool)

  function Last(loads: seq<Load>): Load
    requires loads != []
  {
    loads[|loads| - 1]
  }

  function Front(loads: seq<Load>): seq<Load>
    requires loads != []
  {
    loads[..|loads| - 1]
  }

  function CacheAfter(w: World, loads: seq<Load>): Cache
    decreases |loads|
  {
    if loads == [] then NOTHING_CACHED
    else Loaded(w, CacheAfter(w, Front(loads)), Last(loads).identify, Last(loads).probe, Last(loads).refresh)
  }

  // The binary is not swapped inside a load.
  ghost predicate Steady(loads: seq<Load>) {
    forall k :: 0 <= k < |loads| ==> loads[k].identify == loads[k].probe
  }

  // Equal identities imply equal probes. A stored key is empty when the identity could not be read.
  ghost predicate Honest(w: World) {
    forall i: Installation, j: Installation :: w.identity(j) == Some(Key(w, i)) ==> w.probe(i) == w.probe(j)
  }

  // ---------------------------------------------------------------------
  // Which load an entry comes from
  // ---------------------------------------------------------------------

  /** The last load that ran the probe. */
  function LastFill(w: World, loads: seq<Load>): (f: nat)
    requires loads != []
    ensures f < |loads|
    decreases |loads|
  {
    if |loads| == 1 || Fills(w, CacheAfter(w, Front(loads)), Last(loads).identify, Last(loads).refresh)
    then |loads| - 1
    else LastFill(w, Front(loads))
  }

  /** The cache holds what the last fill stored, and later loads read the identity it stored. */
  lemma {:induction false} CacheHoldsLastFill(w: World, loads: seq<Load>)
    requires loads != []
    ensures
      var f := loads[LastFill(w, loads)];
      CacheAfter(w, loads) == Cache(true, Key(w, f.identify), w.probe(f.probe))
    ensures LastFill(w, loads) < |loads| - 1 ==>
              !Last(loads).refresh && 
              w.identity(Last(loads).identify) == Some(Key(w, loads[LastFill(w, loads)].identify))
    decreases |loads|
  {
    if |loads| > 1 {
      CacheHoldsLastFill(w, Front(loads));
    } else {
      assert CacheAfter(w, Front(loads)) == NOTHING_CACHED;
    }
  }

  // ---------------------------------------------------------------------
  // Exactness
  // ---------------------------------------------------------------------

  /** Every steady sequence of loads is answered with a fresh probe exactly when identities are honest. */
  lemma {:induction false} CacheIsExactIffHonest(w: World)
    ensures (forall loads: seq<Load> :: loads != [] && Steady(loads) ==>
              CacheAfter(w, loads).result == w.probe(Last(loads).probe))
            <==> Honest(w)
  {
    if Honest(w) {
      forall loads: seq<Load> | loads != [] && Steady(loads)
        ensures CacheAfter(w, loads).result == w.probe(Last(loads).probe)
      {
        StaleExactly(w, loads);
      }
    } else {
      var i: Installation, j: Installation :| w.identity(j) == Some(Key(w, i)) && w.probe(i) != w.probe(j);
      var first, both := [Load(i, i, false)], [Load(i, i, false), Load(j, j, false)];
      assert Front(first) == [] && Front(both) == first;
      assert CacheAfter(w, first) == Cache(true, Key(w, i), w.probe(i));
      assert CacheAfter(w, both).result == w.probe(i);
      assert Steady(both) && both != [];
    }
  }

  /**
   * When the binary may be swapped anywhere, an answer is stale exactly when it comes from an earlier load that
   * read the identity of one binary and probed another, and the first one is back.
   */
  lemma {:induction false} StaleExactly(w: World, loads: seq<Load>)
    requires Honest(w) && loads != []
    ensures
      var f, now := loads[LastFill(w, loads)], Last(loads);
      LastFill(w, loads) < |loads| - 1 ==>
        && (CacheAfter(w, loads).result != w.probe(now.identify) <==> w.probe(f.probe) != w.probe(f.identify))
        && (CacheAfter(w, loads).result != w.probe(now.identify) ==> w.identity(f.probe) != w.identity(now.identify))
        && w.identity(now.identify) == Some(Key(w, f.identify))
    ensures LastFill(w, loads) == |loads| - 1 ==> CacheAfter(w, loads).result == w.probe(Last(loads).probe)
  {
    CacheHoldsLastFill(w, loads);
  }

  // ---------------------------------------------------------------------
  // Requests
  // ---------------------------------------------------------------------

  datatype Call = Call(req: Request, m: Moments)

  /** The load a request causes, if any. */
  function LoadsOf(cfg: Config, call: Call): seq<Load> {
    if ProbesInPrepare(cfg, call.req) then [Load(call.m.identify, call.m.probe, false)]
    else if call.req.defect.None? && call.req.operation == Health && cfg.hasRunner
        && !(cfg.hasAuditor && call.m.startFails)
      then [Load(call.m.identify, call.m.probe, true)]
    else []
  }

  function History(cfg: Config, calls: seq<Call>): seq<Load> {
    if calls == [] then [] else History(cfg, calls[..|calls| - 1]) + LoadsOf(cfg, calls[|calls| - 1])
  }

  ghost function CacheAfterCalls(w: World, cfg: Config, calls: seq<Call>): Cache {
    if calls == [] then NOTHING_CACHED
    else
      var call := calls[|calls| - 1];
      Handle(w, cfg, CacheAfterCalls(w, cfg, calls[..|calls| - 1]), call.req, call.m).cache
  }

  lemma OneCallLoads(w: World, cfg: Config, c: Cache, call: Call)
    ensures
      var loads := LoadsOf(cfg, call);
      Handle(w, cfg, c, call.req, call.m).cache ==
        if loads == [] then c else Loaded(w, c, loads[0].identify, loads[0].probe, loads[0].refresh)
  {
  }

  /** The cache in front of each request is the one its loads, in order, leave behind. */
  lemma {:induction false} CacheFollowsHistory(w: World, cfg: Config, calls: seq<Call>)
    ensures CacheAfterCalls(w, cfg, calls) == CacheAfter(w, History(cfg, calls))
  {
    if calls != [] {
      var before, call := calls[..|calls| - 1], calls[|calls| - 1];
      CacheFollowsHistory(w, cfg, before);
      OneCallLoads(w, cfg, CacheAfterCalls(w, cfg, before), call);
      var loads := LoadsOf(cfg, call);
      if loads != [] {
        assert Front(History(cfg, before) + loads) == History(cfg, before);
      } else {
        assert History(cfg, before) + loads == History(cfg, before);
      }
    }
  }

  /** The events an auditor or an executed diagnostic can tell apart: all but the probes. */
  function WithoutProbes(es: seq<Event>): seq<Event> {
    if es == [] then [] else (if es[0].Probing? then [] else [es[0]]) + WithoutProbes(es[1..])
  }

  lemma {:induction false} WithoutProbesConcat(a: seq<Event>, b: seq<Event>)
    ensures WithoutProbes(a + b) == WithoutProbes(a) + WithoutProbes(b)
  {
    if a == [] {
      assert a + b == b;
    } else {
      WithoutProbesConcat(a[1..], b);
      assert (a + b)[1..] == a[1..] + b && (a + b)[0] == a[0];
      var first := if a[0].Probing? then [] else [a[0]];
      assert first + (WithoutProbes(a[1..]) + WithoutProbes(b)) == (first + WithoutProbes(a[1..])) + WithoutProbes(b);
    }
  }

  /** The answer of an agent that keeps no cache. */
  ghost function Fresh(w: World, cfg: Config, call: Call): Handled {
    Handle(w, cfg, NOTHING_CACHED, call.req, call.m)
  }

  lemma DropProbe(es: seq<Event>, rest: seq<Event>)
    requires es == [] || es == [Probing]
    ensures WithoutProbes(es + rest) == WithoutProbes(rest)
  {
    WithoutProbesConcat(es, rest);
    assert WithoutProbes(es) == [];
  }

  /** An inspect or snapshot request is answered from the cached result alone; the probe is the only other event. */
  lemma AnswerFromResult(w: World, cfg: Config, c: Cache, call: Call)
    requires ProbesInPrepare(cfg, call.req)
    ensures
      var h := Handle(w, cfg, c, call.req, call.m);
      var c1 := AfterPrepare(w, cfg, c, call.req, call.m);
      h.response == Answered(w, cfg, call, c1.result).response
      && h.events == PrepareEvents(w, cfg, c, call.req, call.m) + Answered(w, cfg, call, c1.result).events
  {
    hide Finish, AuditOf, RejectEvents;
    var before := PrepareEvents(w, cfg, c, call.req, call.m);
    var c1 := AfterPrepare(w, cfg, c, call.req, call.m);
    match Prepared(cfg, call.req, c1.result) {
      case Reject(code) =>
      case Ready(schema, version) =>
        var start := AuditOf(cfg, call.req, Started, NoVerdict, None, call.m.startFails);
        FinishAfter(w, cfg, c1, call, before, start, schema, version);
    }
  }

  lemma FinishAfter(w: World, cfg: Config, c: Cache, call: Call, before: seq<Event>, start: seq<Event>, schema: string,
                    version: string)
    requires call.req.operation != Health
    ensures
      var h := Finish(w, cfg, c, call.req, call.m, before + start, schema, version);
      var g := Finish(w, cfg, NOTHING_CACHED, call.req, call.m, start, schema, version);
      h.cache == c && h.response == g.response && h.events == before + g.events
  {
    hide CompletionEvents, RunEvents, DiagnosticOutcome, Command;
    var o := RunOutcome(w, cfg, c.result, call.req, call.m, schema, version);
    var tail := RunEvents(w, cfg, call.req) + CompletionEvents(cfg, call.req, o, call.m);
    assert before + start + tail == before + (start + tail);
  }

  /** What Handle does once the capabilities are known to be p. */
  ghost function Answered(w: World, cfg: Config, call: Call, p: Probe): Handled {
    match Prepared(cfg, call.req, p)
    case Reject(code) => Handled(NOTHING_CACHED, RejectEvents(cfg, call.req, code, call.m),
        Response(call.req.id, Failed(code)))
    case Ready(schema, version) =>
      var start := AuditOf(cfg, call.req, Started, NoVerdict, None, call.m.startFails);
      if cfg.hasAuditor && call.m.startFails then
        Handled(NOTHING_CACHED, start, Response(call.req.id, Failed(Unavailable)))
      else Finish(w, cfg, NOTHING_CACHED, call.req, call.m, start, schema, version)
  }

  /** A request sees the cache only through the result its own load returns. */
  lemma OnlyTheResultMatters(w: World, cfg: Config, c: Cache, call: Call, probe: Installation)
    requires LoadsOf(cfg, call) != []
    requires Handle(w, cfg, c, call.req, call.m).cache.result == w.probe(probe)
    ensures
      var h, g := Handle(w, cfg, c, call.req, call.m), Fresh(w, cfg, call.(m := call.m.(probe := probe)));
      h.response == g.response && WithoutProbes(h.events) == WithoutProbes(g.events)
  {
    var moved := call.(m := call.m.(probe := probe));
    if ProbesInPrepare(cfg, call.req) {
      OneCallLoads(w, cfg, c, call);
      AnswerFromResult(w, cfg, c, call);
      AnswerFromResult(w, cfg, NOTHING_CACHED, moved);
      SameAnswer(w, cfg, call, probe);
      var tail := Answered(w, cfg, call, w.probe(probe)).events;
      DropProbe(PrepareEvents(w, cfg, c, call.req, call.m), tail);
      DropProbe(PrepareEvents(w, cfg, NOTHING_CACHED, moved.req, moved.m), tail);
    }
  }

  lemma SameAnswer(w: World, cfg: Config, call: Call, probe: Installation)
    requires ProbesInPrepare(cfg, call.req)
    ensures
      var a, b := Answered(w, cfg, call, w.probe(probe)),
          Answered(w, cfg, call.(m := call.m.(probe := probe)), w.probe(probe));
      a.response == b.response && a.events == b.events
  {
  }

  /**
   * Every response, over every run, is the one an agent without a cache gives when its probe runs at the moment
   * of the last fill; audit records and executed commands are the same too.
   */
  lemma ServedFromLastFill(w: World, cfg: Config, calls: seq<Call>)
    requires calls != []
    ensures
      var before, call := calls[..|calls| - 1], calls[|calls| - 1];
      var loads := History(cfg, calls);
      var h := Handle(w, cfg, CacheAfterCalls(w, cfg, before), call.req, call.m);
      if LoadsOf(cfg, call) == [] then
        h.response == Fresh(w, cfg, call).response && h.events == Fresh(w, cfg, call).events
      else
        && loads != []
        && var g := Fresh(w, cfg, call.(m := call.m.(probe := loads[LastFill(w, loads)].probe)));
        h.response == g.response && WithoutProbes(h.events) == WithoutProbes(g.events)
  {
    var before, call := calls[..|calls| - 1], calls[|calls| - 1];
    if LoadsOf(cfg, call) != [] {
      var loads := History(cfg, calls);
      CacheFollowsHistory(w, cfg, calls);
      CacheHoldsLastFill(w, loads);
      OnlyTheResultMatters(w, cfg, CacheAfterCalls(w, cfg, before), call, loads[LastFill(w, loads)].probe);
    }
  }

  /**
   * With swaps only between requests and honest identities the caching agent answers, records and runs exactly
   * what the agent that probes on every request does.
   */
  lemma CachingRefinesProbing(w: World, cfg: Config, calls: seq<Call>, k: nat)
    requires Honest(w) && k < |calls|
    requires forall i :: 0 <= i < |calls| ==> calls[i].m.identify == calls[i].m.probe
    ensures
      var h := Handle(w, cfg, CacheAfterCalls(w, cfg, calls[..k]), calls[k].req, calls[k].m);
      var g := Fresh(w, cfg, calls[k]);
      h.response == g.response && WithoutProbes(h.events) == WithoutProbes(g.events)
  {
    var upTo := calls[..k + 1];
    assert upTo[..k] == calls[..k];
    ServedFromLastFill(w, cfg, upTo);
    if LoadsOf(cfg, calls[k]) != [] {
      SteadyHistory(cfg, upTo);
      CacheIsExactIffHonest(w);
      CacheFollowsHistory(w, cfg, upTo);
      var loads := History(cfg, upTo);
      assert Last(loads) == LoadsOf(cfg, calls[k])[0];
      assert CacheAfter(w, loads).result == w.probe(calls[k].m.probe);
      OnlyTheResultMatters(w, cfg, CacheAfterCalls(w, cfg, calls[..k]), calls[k], calls[k].m.probe);
    }
  }

  lemma {:induction false} SteadyHistory(cfg: Config, calls: seq<Call>)
    requires forall i :: 0 <= i < |calls| ==> calls[i].m.identify == calls[i].m.probe
    ensures Steady(History(cfg, calls))
  {
    if calls != [] {
      SteadyHistory(cfg, calls[..|calls| - 1]);
    }
  }

  /** What health advertises is what prepare accepts, for any configuration and any probe result. */
  lemma AdvertisedIffAccepted(cfg: Config, p: Probe, req: Request)
    requires req.operation == Inspect ==> req.inspectParams.Some? && req.inspectParams.value != []
    requires req.operation == SnapshotCreate ==> req.snapshotParams == Some(false)
    ensures Prepared(cfg, req, p).Ready? <==>
              exists a :: a in Manifest(cfg, p).operations && a.operation == req.operation
    ensures Prepared(cfg, req, p).Ready? && req.operation != Health ==>
              && Advertised(req.operation, Some(Prepared(cfg, req, p).schema)) in Manifest(cfg, p).operations
              && Manifest(cfg, p).spectraVersion == Prepared(cfg, req, p).spectraVersion
  {
    var ops := Manifest(cfg, p).operations;
    assert ops[0] == Advertised(Health, None);
    if cfg.hasRunner && p.Probed? {
      var inspect, snapshot := Advertise(cfg, p.caps, Inspect), Advertise(cfg, p.caps, SnapshotCreate);
      assert forall a :: a in ops <==> a == Advertised(Health, None) || a in inspect || a in snapshot;
      assert inspect != [] ==> inspect[0] in inspect;
      assert snapshot != [] ==> snapshot[0] in snapshot;
    }
  }

  /** The agent refused the request before starting it. */
  ghost predicate Refused(h: Handled) {
    exists e :: e in h.events && e.Audit? && e.verdict == Rejected
  }

  lemma RefusedIffReject(w: World, cfg: Config, call: Call)
    requires cfg.hasAuditor && call.req.defect.None?
    ensures Refused(Fresh(w, cfg, call)) <==> Prepared(cfg, call.req, w.probe(call.m.probe)).Reject?
  {
    var g := Fresh(w, cfg, call);
    if ProbesInPrepare(cfg, call.req) {
      AnswerFromResult(w, cfg, NOTHING_CACHED, call);
    }
    match Prepared(cfg, call.req, w.probe(call.m.probe)) {
      case Reject(code) => assert RejectEvents(cfg, call.req, code, call.m)[0] in g.events;
      case Ready(schema, version) =>
    }
  }

  lemma WithoutProbesKeepsAudits(es: seq<Event>, e: Event)
    requires !e.Probing?
    ensures e in WithoutProbes(es) <==> e in es
  {
    if es != [] {
      WithoutProbesKeepsAudits(es[1..], e);
      assert es == [es[0]] + es[1..];
    }
  }

  /** The response the agent gives to the k-th call of a run. */
  ghost function Answer(w: World, cfg: Config, calls: seq<Call>, k: nat): Handled
    requires k < |calls|
  {
    Handle(w, cfg, CacheAfterCalls(w, cfg, calls[..k]), calls[k].req, calls[k].m)
  }

  /** Two moments with the same installation, or with equal readable identities. */
  predicate SameBinary(w: World, i: Installation, j: Installation) {
    i == j || w.identity(j) == Some(Key(w, i))
  }

  lemma HealthAnswer(w: World, cfg: Config, call: Call)
    requires call.req.operation == Health && Fresh(w, cfg, call).response.outcome.HealthReport?
    ensures Fresh(w, cfg, call).response.outcome == Manifest(cfg, w.probe(call.m.probe))
  {
  }

  lemma FreshRefusal(w: World, cfg: Config, calls: seq<Call>, n: nat)
    requires Honest(w) && n < |calls| && cfg.hasAuditor && calls[n].req.defect.None?
    requires forall i :: 0 <= i < |calls| ==> calls[i].m.identify == calls[i].m.probe
    ensures Refused(Answer(w, cfg, calls, n)) <==> Prepared(cfg, calls[n].req, w.probe(calls[n].m.probe)).Reject?
  {
    var h, g := Answer(w, cfg, calls, n), Fresh(w, cfg, calls[n]);
    CachingRefinesProbing(w, cfg, calls, n);
    forall e: Event | e.Audit? ensures e in h.events <==> e in g.events {
      WithoutProbesKeepsAudits(h.events, e);
      WithoutProbesKeepsAudits(g.events, e);
    }
    RefusedIffReject(w, cfg, calls[n]);
  }

  /**
   * Over a run with honest identities, the operations of an answered health request tell exactly which well-formed
   * requests are refused, before or after it, as long as the same binary is installed.
   */
  lemma ManifestPredictsAcceptance(w: World, cfg: Config, calls: seq<Call>, j: nat, n: nat)
    requires Honest(w) && j < |calls| && n < |calls| && cfg.hasAuditor
    requires forall i :: 0 <= i < |calls| ==> calls[i].m.identify == calls[i].m.probe
    requires calls[j].req.operation == Health && Answer(w, cfg, calls, j).response.outcome.HealthReport?
    requires SameBinary(w, calls[j].m.probe, calls[n].m.probe) && calls[n].req.defect.None?
    requires calls[n].req.operation == Inspect ==>
               calls[n].req.inspectParams.Some? && calls[n].req.inspectParams.value != []
    requires calls[n].req.operation == SnapshotCreate ==> calls[n].req.snapshotParams == Some(false)
    ensures
      var operations := Answer(w, cfg, calls, j).response.outcome.operations;
      Refused(Answer(w, cfg, calls, n)) <==> !exists a :: a in operations && a.operation == calls[n].req.operation
  {
    hide Handle, Prepared, Manifest;
    CachingRefinesProbing(w, cfg, calls, j);
    HealthAnswer(w, cfg, calls[j]);
    FreshRefusal(w, cfg, calls, n);
    AdvertisedIffAccepted(cfg, w.probe(calls[n].m.probe), calls[n].req);
  }

  /** Only the three known operations reach execution, each with the parameters it needs. */
  lemma ReadyMeansKnown(cfg: Config, req: Request, p: Probe)
    requires Prepared(cfg, req, p).Ready?
    ensures match req.operation
            case Health => true
            case Inspect => cfg.hasRunner && req.inspectParams.Some? && req.inspectParams.value != []
            case SnapshotCreate =>
              && cfg.hasRunner && cfg.allowSnapshot && req.snapshotParams.Some?
              && (req.snapshotParams.value ==> cfg.allowSnapshotApps)
            case Unknown(_) => false
  {
  }

  /**
   * A probe failure is cached like a success: as long as the identity reads the same and nobody asks for health,
   * every request that consults it is refused with its code, whatever the probe would say now.
   */
  lemma {:induction false} FailureSticksUntilHealth(w: World, cfg: Config, before: seq<Call>, after: seq<Call>)
    requires CacheAfterCalls(w, cfg, before).loaded && CacheAfterCalls(w, cfg, before).result.ProbeFailed?
    requires forall call :: call in after ==>
               call.req.operation != Health && 
               w.identity(call.m.identify) == Some(CacheAfterCalls(w, cfg, before).identity)
    ensures CacheAfterCalls(w, cfg, before + after) == CacheAfterCalls(w, cfg, before)
    ensures
      var c := CacheAfterCalls(w, cfg, before);
      forall call :: call in after && ProbesInPrepare(cfg, call.req) ==>
        Handle(w, cfg, c, call.req, call.m).response ==
          Response(call.req.id, Failed(CodeOr(c.result.code, IncompatibleSpectra)))
  {
    if after == [] {
      assert before + after == before;
    } else {
      var front, call := after[..|after| - 1], after[|after| - 1];
      FailureSticksUntilHealth(w, cfg, before, front);
      assert (before + after)[..|before + after| - 1] == before + front;
      assert call in after && after == front + [call];
      OneCallLoads(w, cfg, CacheAfterCalls(w, cfg, before), call);
    }
  }
}
