// One agent serving any number of sessions at once: their requests overlap, and only the loads of capabilities
// exclude each other (internal/transport/tsnet/tsnet.go, internal/agent/agent.go).
module Sessions {
  import opened Common
  import opened Protocol
  import opened Agent
  import opened AuditGrammar
  import CapabilityCache

  type Call = CapabilityCache.Call

  // Where a session is with its current request. found is the cache its load met.
  datatype Local =
    | Resting
    | Arrived(call: Call)
    | Answered(call: Call, found: Cache)                                       // prepare has its capabilities
    | Underway(call: Call, found: Cache, schema: string, spectraVersion: string) // the started record is written
    | Finishing(call: Call, found: Cache, o: Outcome)                          // the operation has run

  // A request that was answered.
  datatype Done = Done(session: nat, call: Call, found: Cache, response: Response)

  // The shared cache with the loads that made it, the sessions, the shared trail and the answered requests.
  datatype System = System(
    cache: Cache, loads: seq<CapabilityCache.Load>, locals: map<nat, Local>, trail: seq<(nat, Event)>, log: seq<Done>)

  const START := System(NOTHING_CACHED, [], map[], [], [])

  datatype Action = Arrive(p: nat, call: Call) | Prepare(p: nat) | Decide(p: nat) | Execute(p: nat) | Complete(p: nat)

  function At(s: System, p: nat): Local {
    if p in s.locals then s.locals[p] else Resting
  }

  predicate Can(s: System, a: Action) {
    match a
    case Arrive(p, _) => At(s, p).Resting?
    case Prepare(p) => At(s, p).Arrived?
    case Decide(p) => At(s, p).Answered?
    case Execute(p) => At(s, p).Underway?
    case Complete(p) => At(s, p).Finishing?
  }

  function Tagged(p: nat, es: seq<Event>): seq<(nat, Event)> {
    seq(|es|, i requires 0 <= i < |es| => (p, es[i]))
  }

  function Emit(s: System, p: nat, es: seq<Event>, l: Local): System {
    s.(trail := s.trail + Tagged(p, es), locals := s.locals[p := l])
  }

  function Answer(s: System, p: nat, call: Call, found: Cache, r: Response): System {
    s.(log := s.log + [Done(p, call, found, r)])
  }

  /** loadCapabilities, alone under the mutex. */
  function Load(w: World, s: System, m: Moments, refresh: bool): System {
    s.(cache := Loaded(w, s.cache, m.identify, m.probe, refresh),
       loads := s.loads + [CapabilityCache.Load(m.identify, m.probe, refresh)])
  }

  ghost function Next(w: World, cfg: Config, s: System, a: Action): System
    requires Can(s, a)
  {
    match a
    case Arrive(p, call) => s.(locals := s.locals[p := Arrived(call)])
    case Prepare(p) =>
      var call := At(s, p).call;
      var t := Emit(s, p, if call.req.defect.None? then PrepareEvents(w, cfg, s.cache, call.req, call.m) else [],
                    Answered(call, s.cache));
      if ProbesInPrepare(cfg, call.req) then Load(w, t, call.m, false) else t
    case Decide(p) => Decided(w, cfg, s, p, At(s, p).call, At(s, p).found)
    case Execute(p) =>
      var l := At(s, p);
      var found := if l.call.req.operation == Health then s.cache else l.found;
      var o := RunOutcome(w, cfg, AfterRun(w, cfg, found, l.call.req, l.call.m).result,
                          l.call.req, l.call.m, l.schema, l.spectraVersion);
      var t := Emit(s, p, RunEvents(w, cfg, l.call.req), Finishing(l.call, found, o));
      if l.call.req.operation == Health && cfg.hasRunner then Load(w, t, l.call.m, true) else t
    case Complete(p) =>
      var l := At(s, p);
      Answer(Emit(s, p, CompletionEvents(cfg, l.call.req, l.o, l.call.m), Resting), p, l.call, l.found,
          Response(l.call.req.id, l.o))
  }

  /** reject, or the started record. */
  function Decided(w: World, cfg: Config, s: System, p: nat, call: Call, found: Cache): System {
    var req, m := call.req, call.m;
    if req.defect.Some? then
      Answer(Emit(s, p, RejectEvents(cfg, req, req.defect.value, m), Resting), p, call, found,
          Response(req.id, Failed(req.defect.value)))
    else
      match Prepared(cfg, req, AfterPrepare(w, cfg, found, req, m).result)
      case Reject(code) =>
        Answer(Emit(s, p, RejectEvents(cfg, req, code, m), Resting), p, call, found, Response(req.id, Failed(code)))
      case Ready(schema, version) =>
        var started := AuditOf(cfg, req, Started, NoVerdict, None, m.startFails);
        if cfg.hasAuditor && m.startFails then
          Answer(Emit(s, p, started, Resting), p, call, found, Response(req.id, Failed(Unavailable)))
        else Emit(s, p, started, Underway(call, found, schema, version))
  }

  ghost predicate Possible(w: World, cfg: Config, acts: seq<Action>) {
    acts == [] || (
      && Possible(w, cfg, acts[..|acts| - 1])
      && Can(Reached(w, cfg, acts[..|acts| - 1]), acts[|acts| - 1]))
  }

  ghost function Reached(w: World, cfg: Config, acts: seq<Action>): System {
    if acts == [] then START
    else
      var s := Reached(w, cfg, acts[..|acts| - 1]);
      if Can(s, acts[|acts| - 1]) then Next(w, cfg, s, acts[|acts| - 1]) else s
  }

  // ---------------------------------------------------------------------
  // One session's part of the trail
  // ---------------------------------------------------------------------

  function PartOf(p: nat, trail: seq<(nat, Event)>): seq<Event> {
    if trail == [] then []
    else
      var last := trail[|trail| - 1];
      PartOf(p, trail[..|trail| - 1]) + if last.0 == p then [last.1] else []
  }

  lemma {:induction false} PartOfConcat(p: nat, a: seq<(nat, Event)>, b: seq<(nat, Event)>)
    ensures PartOf(p, a + b) == PartOf(p, a) + PartOf(p, b)
  {
    if b == [] {
      assert a + b == a;
    } else {
      PartOfConcat(p, a, b[..|b| - 1]);
      assert (a + b)[..|a + b| - 1] == a + b[..|b| - 1];
    }
  }

  lemma {:induction false} PartOfTagged(p: nat, q: nat, es: seq<Event>)
    ensures PartOf(p, Tagged(q, es)) == if p == q then es else []
  {
    if es != [] {
      PartOfTagged(p, q, es[..|es| - 1]);
      assert Tagged(q, es)[..|es| - 1] == Tagged(q, es[..|es| - 1]);
      assert es == es[..|es| - 1] + [es[|es| - 1]];
    }
  }

  /** What the answered requests of session p left in the trail, one after the other. */
  ghost function Settled(w: World, cfg: Config, p: nat, log: seq<Done>): seq<Event> {
    if log == [] then []
    else
      var last := log[|log| - 1];
      Settled(w, cfg, p, log[..|log| - 1])
      + if last.session == p then Handle(w, cfg, last.found, last.call.req, last.call.m).events else []
  }

  /** What the current request has left so far. */
  ghost function Pending(w: World, cfg: Config, l: Local): seq<Event> {
    match l
    case Resting => []
    case Arrived(_) => []
    case Answered(call, found) => Opening(w, cfg, call, found)
    case Underway(call, found, _, _) => Opening(w, cfg, call, found) + StartRecord(cfg, call)
    case Finishing(call, found, _) =>
      Opening(w, cfg, call, found) + StartRecord(cfg, call) + RunEvents(w, cfg, call.req)
  }

  function Opening(w: World, cfg: Config, call: Call, found: Cache): seq<Event> {
    if call.req.defect.None? then PrepareEvents(w, cfg, found, call.req, call.m) else []
  }

  function StartRecord(cfg: Config, call: Call): seq<Event> {
    AuditOf(cfg, call.req, Started, NoVerdict, None, call.m.startFails)
  }

  /** A session is where Handle, with the cache its load met, would be. */
  ghost predicate OnTrack(w: World, cfg: Config, l: Local) {
    match l
    case Underway(call, found, schema, version) =>
      && call.req.defect.None? && !(cfg.hasAuditor && call.m.startFails)
      && Prepared(cfg, call.req, AfterPrepare(w, cfg, found, call.req, call.m).result) == Ready(schema, version)
    case Finishing(call, found, o) =>
      && call.req.defect.None? && !(cfg.hasAuditor && call.m.startFails)
      && var d := Prepared(cfg, call.req, AfterPrepare(w, cfg, found, call.req, call.m).result);
         && d.Ready?
         && o == RunOutcome(w, cfg,
                            AfterRun(w, cfg, AfterPrepare(w, cfg, found, call.req, call.m), call.req, call.m).result,
                            call.req, call.m, d.schema, d.spectraVersion)
    case _ => true
  }

  /** The cache some prefix of the loads left. */
  ghost predicate FromLoads(w: World, loads: seq<CapabilityCache.Load>, c: Cache) {
    exists n :: 0 <= n <= |loads| && c == CapabilityCache.CacheAfter(w, loads[..n])
  }

  ghost predicate LocalOk(w: World, cfg: Config, s: System, p: nat) {
    && OnTrack(w, cfg, At(s, p))
    && PartOf(p, s.trail) == Settled(w, cfg, p, s.log) + Pending(w, cfg, At(s, p))
    && (At(s, p).Answered? || At(s, p).Underway? || At(s, p).Finishing? ==> FromLoads(w, s.loads, At(s, p).found))
  }

  ghost predicate LogOk(w: World, cfg: Config, s: System) {
    forall i :: 0 <= i < |s.log| ==>
      && s.log[i].response == Handle(w, cfg, s.log[i].found, s.log[i].call.req, s.log[i].call.m).response
      && FromLoads(w, s.loads, s.log[i].found)
  }

  ghost predicate Ok(w: World, cfg: Config, s: System) {
    && s.cache == CapabilityCache.CacheAfter(w, s.loads)
    && (forall p: nat :: LocalOk(w, cfg, s, p))
    && LogOk(w, cfg, s)
  }

  // ---------------------------------------------------------------------
  // Each action keeps it
  // ---------------------------------------------------------------------

  lemma MoreLoads(w: World, loads: seq<CapabilityCache.Load>, l: CapabilityCache.Load, c: Cache)
    requires FromLoads(w, loads, c)
    ensures FromLoads(w, loads + [l], c)
  {
    var n :| 0 <= n <= |loads| && c == CapabilityCache.CacheAfter(w, loads[..n]);
    assert (loads + [l])[..n] == loads[..n];
  }

  lemma NowFromLoads(w: World, loads: seq<CapabilityCache.Load>)
    ensures FromLoads(w, loads, CapabilityCache.CacheAfter(w, loads))
  {
    assert loads[..|loads|] == loads;
  }

  lemma LoadExtends(w: World, s: System, m: Moments, refresh: bool)
    requires s.cache == CapabilityCache.CacheAfter(w, s.loads)
    ensures Load(w, s, m, refresh).cache == CapabilityCache.CacheAfter(w, Load(w, s, m, refresh).loads)
  {
    var l := CapabilityCache.Load(m.identify, m.probe, refresh);
    assert CapabilityCache.Front(s.loads + [l]) == s.loads;
  }

  /** Emitting events of session p touches the trail of p only. */
  lemma EmitTrail(s: System, p: nat, es: seq<Event>, l: Local, q: nat)
    ensures PartOf(q, Emit(s, p, es, l).trail) == PartOf(q, s.trail) + if p == q then es else []
    ensures At(Emit(s, p, es, l), q) == if p == q then l else At(s, q)
  {
    PartOfConcat(q, s.trail, Tagged(p, es));
    PartOfTagged(q, p, es);
  }

  /** A step of session p that answers nothing: it writes what its local state owes and stays on track. */
  lemma QuietStep(w: World, cfg: Config, s: System, p: nat, es: seq<Event>, l: Local)
    requires Ok(w, cfg, s) && OnTrack(w, cfg, l)
    requires Pending(w, cfg, At(s, p)) + es == Pending(w, cfg, l)
    requires l.Answered? || l.Underway? || l.Finishing? ==> FromLoads(w, s.loads, l.found)
    ensures Ok(w, cfg, Emit(s, p, es, l))
  {
    hide OnTrack, Pending, PartOf, Settled, FromLoads, Handle;
    var t := Emit(s, p, es, l);
    forall q: nat ensures LocalOk(w, cfg, t, q) {
      EmitTrail(s, p, es, l, q);
      assert LocalOk(w, cfg, s, q);
      if q == p {
        assert PartOf(p, t.trail) == Settled(w, cfg, p, s.log) + Pending(w, cfg, At(s, p)) + es;
      } else {
        assert PartOf(q, t.trail) == PartOf(q, s.trail);
      }
    }
  }

  /** A step of session p that answers its request with the events and the response of Handle. */
  lemma AnsweringStep(w: World, cfg: Config, s: System, p: nat, es: seq<Event>, call: Call, found: Cache, r: Response)
    requires Ok(w, cfg, s) && FromLoads(w, s.loads, found)
    requires Pending(w, cfg, At(s, p)) + es == Handle(w, cfg, found, call.req, call.m).events
    requires r == Handle(w, cfg, found, call.req, call.m).response
    ensures Ok(w, cfg, Answer(Emit(s, p, es, Resting), p, call, found, r))
  {
    hide Pending, PartOf, Handle, FromLoads;
    var t := Answer(Emit(s, p, es, Resting), p, call, found, r);
    assert t.log[..|t.log| - 1] == s.log;
    forall q: nat ensures LocalOk(w, cfg, t, q) {
      EmitTrail(s, p, es, Resting, q);
      assert LocalOk(w, cfg, s, q);
      IdleOwesNothing(w, cfg);
      if q == p {
        assert PartOf(p, t.trail) == Settled(w, cfg, p, s.log) + (Pending(w, cfg, At(s, p)) + es);
        assert PartOf(p, t.trail) == Settled(w, cfg, p, t.log) + [];
      } else {
        assert Settled(w, cfg, q, t.log) == Settled(w, cfg, q, s.log) + [];
      }
    }
  }

  lemma IdleOwesNothing(w: World, cfg: Config)
    ensures Pending(w, cfg, Resting) == [] && OnTrack(w, cfg, Resting)
  {
  }

  /** A load changes nothing but the cache. */
  lemma LoadStep(w: World, cfg: Config, s: System, m: Moments, refresh: bool)
    requires Ok(w, cfg, s)
    ensures Ok(w, cfg, Load(w, s, m, refresh))
  {
    hide OnTrack, Pending, PartOf, Settled, Handle, FromLoads, Loaded;
    LoadExtends(w, s, m, refresh);
    var t := Load(w, s, m, refresh);
    var l := CapabilityCache.Load(m.identify, m.probe, refresh);
    forall q: nat ensures LocalOk(w, cfg, t, q) {
      assert LocalOk(w, cfg, s, q) && At(t, q) == At(s, q);
      if At(s, q).Answered? || At(s, q).Underway? || At(s, q).Finishing? {
        MoreLoads(w, s.loads, l, At(s, q).found);
      }
    }
    forall i | 0 <= i < |s.log| ensures FromLoads(w, t.loads, s.log[i].found) {
      MoreLoads(w, s.loads, l, s.log[i].found);
    }
  }

  lemma ArriveKeepsOk(w: World, cfg: Config, s: System, p: nat, call: Call)
    requires Ok(w, cfg, s) && At(s, p).Resting?
    ensures Ok(w, cfg, s.(locals := s.locals[p := Arrived(call)]))
  {
    QuietStep(w, cfg, s, p, [], Arrived(call));
    assert s.trail + Tagged(p, []) == s.trail;
  }

  lemma PrepareKeepsOk(w: World, cfg: Config, s: System, p: nat)
    requires Ok(w, cfg, s) && At(s, p).Arrived?
    ensures Ok(w, cfg, Next(w, cfg, s, Prepare(p)))
  {
    var call := At(s, p).call;
    var es := Opening(w, cfg, call, s.cache);
    NowFromLoads(w, s.loads);
    assert [] + es == es;
    QuietStep(w, cfg, s, p, es, Answered(call, s.cache));
    hide Ok;
    if ProbesInPrepare(cfg, call.req) {
      LoadStep(w, cfg, Emit(s, p, es, Answered(call, s.cache)), call.m, false);
    }
  }

  lemma DecideKeepsOk(w: World, cfg: Config, s: System, p: nat)
    requires Ok(w, cfg, s) && At(s, p).Answered?
    ensures Ok(w, cfg, Next(w, cfg, s, Decide(p)))
  {
    assert LocalOk(w, cfg, s, p);
    var call, found := At(s, p).call, At(s, p).found;
    var req, m := call.req, call.m;
    hide Ok;
    if req.defect.Some? {
      assert [] + RejectEvents(cfg, req, req.defect.value, m) == RejectEvents(cfg, req, req.defect.value, m);
      AnsweringStep(w, cfg, s, p, RejectEvents(cfg, req, req.defect.value, m), call, found,
          Response(req.id, Failed(req.defect.value)));
    } else {
      match Prepared(cfg, req, AfterPrepare(w, cfg, found, req, m).result) {
        case Reject(code) =>
          AnsweringStep(w, cfg, s, p, RejectEvents(cfg, req, code, m), call, found, Response(req.id, Failed(code)));
        case Ready(schema, version) =>
          if cfg.hasAuditor && m.startFails {
            AnsweringStep(w, cfg, s, p, StartRecord(cfg, call), call, found, Response(req.id, Failed(Unavailable)));
          } else {
            QuietStep(w, cfg, s, p, StartRecord(cfg, call), Underway(call, found, schema, version));
          }
      }
    }
  }

  /** Health probes nothing in prepare, so the cache it meets later changes nothing of what it did before. */
  lemma HealthMeetsItsCacheLate(w: World, cfg: Config, call: Call, early: Cache, late: Cache)
    requires call.req.operation == Health
    ensures Opening(w, cfg, call, early) == Opening(w, cfg, call, late) == []
    ensures AfterPrepare(w, cfg, late, call.req, call.m) == late
    ensures Prepared(cfg, call.req, early.result) == Prepared(cfg, call.req, late.result) == Ready("", "")
  {
  }

  lemma ExecuteKeepsOk(w: World, cfg: Config, s: System, p: nat)
    requires Ok(w, cfg, s) && At(s, p).Underway?
    ensures Ok(w, cfg, Next(w, cfg, s, Execute(p)))
  {
    assert LocalOk(w, cfg, s, p);
    var l := At(s, p);
    var req, m := l.call.req, l.call.m;
    var found := if req.operation == Health then s.cache else l.found;
    NowFromLoads(w, s.loads);
    hide Ok, FromLoads, RunOutcome, RunEvents;
    var o := RunOutcome(w, cfg, AfterRun(w, cfg, found, req, m).result, req, m, l.schema, l.spectraVersion);
    if req.operation == Health {
      HealthMeetsItsCacheLate(w, cfg, l.call, l.found, s.cache);
    } else {
      OutcomeIgnoresCache(w, cfg, found, AfterPrepare(w, cfg, found, req, m), req, m, l.schema, l.spectraVersion);
    }
    QuietStep(w, cfg, s, p, RunEvents(w, cfg, req), Finishing(l.call, found, o));
    if req.operation == Health && cfg.hasRunner {
      LoadStep(w, cfg, Emit(s, p, RunEvents(w, cfg, req), Finishing(l.call, found, o)), m, true);
    }
  }

  lemma OutcomeIgnoresCache(w: World, cfg: Config, c: Cache, d: Cache, req: Request, m: Moments, schema: string,
                            version: string)
    requires req.operation != Health
    ensures RunOutcome(w, cfg, AfterRun(w, cfg, c, req, m).result, req, m, schema, version)
         == RunOutcome(w, cfg, AfterRun(w, cfg, d, req, m).result, req, m, schema, version)
  {
  }

  /** The events and the response of a request that ran, put together. */
  lemma FinishedIsHandled(w: World, cfg: Config, call: Call, found: Cache, o: Outcome)
    requires OnTrack(w, cfg, Finishing(call, found, o))
    ensures
      var h := Handle(w, cfg, found, call.req, call.m);
      && h.events == Opening(w, cfg, call, found) + StartRecord(cfg, call) + RunEvents(w, cfg, call.req)
                     + CompletionEvents(cfg, call.req, o, call.m)
      && h.response == Response(call.req.id, o)
  {
    hide RunOutcome, RunEvents, CompletionEvents, AfterRun, PrepareEvents, AuditOf;
  }

  lemma CompleteKeepsOk(w: World, cfg: Config, s: System, p: nat)
    requires Ok(w, cfg, s) && At(s, p).Finishing?
    ensures Ok(w, cfg, Next(w, cfg, s, Complete(p)))
  {
    assert LocalOk(w, cfg, s, p);
    var l := At(s, p);
    FinishedIsHandled(w, cfg, l.call, l.found, l.o);
    hide Ok, Handle, RunEvents, CompletionEvents, FromLoads;
    AnsweringStep(w, cfg, s, p, CompletionEvents(cfg, l.call.req, l.o, l.call.m), l.call, l.found,
        Response(l.call.req.id, l.o));
  }

  lemma NextKeepsOk(w: World, cfg: Config, s: System, a: Action)
    requires Ok(w, cfg, s) && Can(s, a)
    ensures Ok(w, cfg, Next(w, cfg, s, a))
  {
    hide Ok;
    match a
    case Arrive(p, call) => ArriveKeepsOk(w, cfg, s, p, call);
    case Prepare(p) => PrepareKeepsOk(w, cfg, s, p);
    case Decide(p) => DecideKeepsOk(w, cfg, s, p);
    case Execute(p) => ExecuteKeepsOk(w, cfg, s, p);
    case Complete(p) => CompleteKeepsOk(w, cfg, s, p);
  }

  lemma {:induction false} InterleavingsAreOk(w: World, cfg: Config, acts: seq<Action>)
    requires Possible(w, cfg, acts)
    ensures Ok(w, cfg, Reached(w, cfg, acts))
  {
    if acts != [] {
      InterleavingsAreOk(w, cfg, acts[..|acts| - 1]);
      NextKeepsOk(w, cfg, Reached(w, cfg, acts[..|acts| - 1]), acts[|acts| - 1]);
    }
  }

  // ---------------------------------------------------------------------
  // Theorems about every interleaving
  // ---------------------------------------------------------------------

  /**
   * However the requests of any number of sessions overlap: each is answered as if it were handled alone on the cache
   * its load met, which is what some prefix of the loads, one after the other, leaves; and each session's part of the
   * shared trail is what its requests would leave alone, in order, with what the current one has left so far.
   */
  lemma SessionsAreLinearizable(w: World, cfg: Config, acts: seq<Action>)
    requires Possible(w, cfg, acts)
    ensures
      var s := Reached(w, cfg, acts);
      && s.cache == CapabilityCache.CacheAfter(w, s.loads)
      && (forall i :: 0 <= i < |s.log| ==>
            && FromLoads(w, s.loads, s.log[i].found)
            && s.log[i].response == Handle(w, cfg, s.log[i].found, s.log[i].call.req, s.log[i].call.m).response)
      && (forall p: nat :: PartOf(p, s.trail) == Settled(w, cfg, p, s.log) + Pending(w, cfg, At(s, p)))
  {
    hide PartOf, Settled, Pending, Handle, OnTrack, FromLoads, Reached, Possible;
    InterleavingsAreOk(w, cfg, acts);
    var s := Reached(w, cfg, acts);
    forall p: nat ensures PartOf(p, s.trail) == Settled(w, cfg, p, s.log) + Pending(w, cfg, At(s, p)) {
      assert LocalOk(w, cfg, s, p);
    }
  }

  /** No request in flight and no load so far saw a swap between its identity read and its probe. */
  ghost predicate Steady(loads: seq<CapabilityCache.Load>, call: Call) {
    CapabilityCache.Steady(loads) && call.m.identify == call.m.probe
  }

  /** A request that meets a cache made by steady loads is answered as by the agent that always probes. */
  lemma FreshOnSteadyCache(w: World, cfg: Config, loads: seq<CapabilityCache.Load>, found: Cache, call: Call)
    requires CapabilityCache.Honest(w) && Steady(loads, call) && FromLoads(w, loads, found)
    ensures
      var h, g := Handle(w, cfg, found, call.req, call.m), CapabilityCache.Fresh(w, cfg, call);
      h.response == g.response && CapabilityCache.WithoutProbes(h.events) == CapabilityCache.WithoutProbes(g.events)
  {
    var own := CapabilityCache.LoadsOf(cfg, call);
    CapabilityCache.OneCallLoads(w, cfg, found, call);
    if own != [] {
      var n :| 0 <= n <= |loads| && found == CapabilityCache.CacheAfter(w, loads[..n]);
      var upTo := loads[..n] + own;
      assert CapabilityCache.Front(upTo) == loads[..n] && CapabilityCache.Last(upTo) == own[0];
      CapabilityCache.CacheIsExactIffHonest(w);
      assert CapabilityCache.CacheAfter(w, upTo).result == w.probe(call.m.probe);
      hide Handle;
      CapabilityCache.OnlyTheResultMatters(w, cfg, found, call, call.m.probe);
      assert call.(m := call.m.(probe := call.m.probe)) == call;
    } else {
      NoLoadNoCache(w, cfg, found, call);
    }
  }

  lemma NoLoadNoCache(w: World, cfg: Config, found: Cache, call: Call)
    requires CapabilityCache.LoadsOf(cfg, call) == []
    ensures
      var h, g := Handle(w, cfg, found, call.req, call.m), CapabilityCache.Fresh(w, cfg, call);
      h.response == g.response && h.events == g.events
  {
  }

  /**
   * Overlapping sessions refine probing: with honest identities and no swap inside a load, every response of every
   * interleaving is that of the agent that probes on each request.
   */
  lemma OverlappingSessionsRefineProbing(w: World, cfg: Config, acts: seq<Action>, i: nat)
    requires CapabilityCache.Honest(w) && Possible(w, cfg, acts) && i < |Reached(w, cfg, acts).log|
    requires Steady(Reached(w, cfg, acts).loads, Reached(w, cfg, acts).log[i].call)
    ensures
      var done := Reached(w, cfg, acts).log[i];
      && done.response == CapabilityCache.Fresh(w, cfg, done.call).response
      && CapabilityCache.WithoutProbes(Handle(w, cfg, done.found, done.call.req, done.call.m).events)
         == CapabilityCache.WithoutProbes(CapabilityCache.Fresh(w, cfg, done.call).events)
  {
    hide Handle, FromLoads, Reached, Possible, PartOf, Settled, Pending;
    SessionsAreLinearizable(w, cfg, acts);
    var s := Reached(w, cfg, acts);
    FreshOnSteadyCache(w, cfg, s.loads, s.log[i].found, s.log[i].call);
  }

  lemma {:induction false} SettledScans(w: World, cfg: Config, p: nat, log: seq<Done>)
    requires cfg.hasAuditor
    ensures Scan(Idle, Settled(w, cfg, p, log)) == Idle
  {
    hide Handle;
    if log != [] {
      var front, last := log[..|log| - 1], log[|log| - 1];
      SettledScans(w, cfg, p, front);
      OneRequestTrail(w, cfg, last.found, last.call.req, last.call.m);
      assert Settled(w, cfg, p, front) + [] == Settled(w, cfg, p, front);
      ScanConcat(Idle, Settled(w, cfg, p, front), Handle(w, cfg, last.found, last.call.req, last.call.m).events);
    }
  }

  /** What a request leaves before it ends can still become a sentence of the grammar: the reader is not lost. */
  lemma PendingScans(w: World, cfg: Config, l: Local)
    requires cfg.hasAuditor && OnTrack(w, cfg, l)
    ensures Scan(Idle, Pending(w, cfg, l)) != Lost
    ensures l.Resting? || l.Arrived? || l.Answered? ==> Scan(Idle, Pending(w, cfg, l)) == Idle
  {
    match l
    case Answered(call, found) => ScanProbes(Opening(w, cfg, call, found), []);
      assert Opening(w, cfg, call, found) + [] == Opening(w, cfg, call, found);
    case Underway(call, found, _, _) =>
      ScanProbes(Opening(w, cfg, call, found), StartRecord(cfg, call));
    case Finishing(call, found, o) =>
      FinishedIsHandled(w, cfg, call, found, o);
      OneRequestTrail(w, cfg, found, call.req, call.m);
      hide Handle, Scan;
      PrefixIsNotLost(Pending(w, cfg, l), CompletionEvents(cfg, call.req, o, call.m));
    case _ =>
  }

  lemma PrefixIsNotLost(a: seq<Event>, b: seq<Event>)
    requires Scan(Idle, a + b) != Lost
    ensures Scan(Idle, a) != Lost
  {
    ScanConcat(Idle, a, b);
    LostStaysLost(b);
  }

  /**
   * In every interleaving each session's part of the shared trail can be read by the grammar, and is a complete
   * sentence of it whenever the session has no request under way.
   */
  lemma SessionTrails(w: World, cfg: Config, acts: seq<Action>, p: nat)
    requires cfg.hasAuditor && Possible(w, cfg, acts)
    ensures
      var s := Reached(w, cfg, acts);
      && Scan(Idle, PartOf(p, s.trail)) != Lost
      && (At(s, p).Resting? ==> Scan(Idle, PartOf(p, s.trail)) == Idle)
  {
    hide Scan, PartOf, Settled, Pending, Reached, Possible, Handle;
    InterleavingsAreOk(w, cfg, acts);
    var s := Reached(w, cfg, acts);
    assert LocalOk(w, cfg, s, p);
    SettledScans(w, cfg, p, s.log);
    PendingScans(w, cfg, At(s, p));
    ScanConcat(Idle, Settled(w, cfg, p, s.log), Pending(w, cfg, At(s, p)));
  }

  /** In every interleaving an idle session's diagnostics stand between their own recorded start and completion. */
  lemma OverlappingRunsAreBracketed(w: World, cfg: Config, acts: seq<Action>, p: nat, k: nat)
    requires cfg.hasAuditor && Possible(w, cfg, acts) && At(Reached(w, cfg, acts), p).Resting?
    requires k < |PartOf(p, Reached(w, cfg, acts).trail)| && PartOf(p, Reached(w, cfg, acts).trail)[k].Ran?
    ensures
      var es := PartOf(p, Reached(w, cfg, acts).trail);
      && 0 < k < |es| - 1 && es[k - 1].Audit? && es[k + 1].Audit?
      && es[k - 1].stage == Started && es[k - 1].recorded && es[k - 1].operation == es[k].op
      && es[k + 1].stage == Completed && es[k + 1].verdict != Rejected
      && es[k + 1].id == es[k - 1].id && es[k + 1].operation == es[k].op
  {
    hide Scan, PartOf, Reached, Possible;
    SessionTrails(w, cfg, acts, p);
    RunsAreBracketed(PartOf(p, Reached(w, cfg, acts).trail), k);
  }
}
