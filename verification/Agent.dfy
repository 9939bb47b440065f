// Request dispatch with the capability cache and the audit trail (internal/agent/agent.go).
module Agent {
  import opened Common
  import opened GoText
  import opened Protocol
  import opened LocalSpectra

  // What is installed at some moment; provisioning may change it at any time.
  type Installation = nat

  datatype Probe = Probed(caps: Capabilities) | ProbeFailed(code: Option<Code>)

  datatype RunResult = Output(data: Bytes, valid: bool, isNull: bool) | RunFailed(deadline: bool)

  // The installed binary and the file system, as functions. A runner that cannot identify its binary has
  // the constant identity "".
  datatype World = World(
    identity: Installation -> Option<string>,
    probe: Installation -> Probe,                      // Capabilities followed by Validate
    run: (Installation, seq<string>) -> RunResult,
    files: Files)

  datatype Config = Config(
    hasRunner: bool, hasAuditor: bool, spectraPath: string, roots: seq<string>,
    allowSnapshot: bool, allowSnapshotApps: bool)

  // The environment during one request: what is installed when the identity is read, when the probe runs
  // and when the diagnostic runs; whether the audit writes fail; whether the deadline has passed.
  datatype Moments = Moments(
    identify: Installation, probe: Installation, run: Installation,
    startFails: bool, endFails: bool, expired: bool)

  datatype Stage = Started | Completed
  datatype Verdict = NoVerdict | Succeeded | FailedVerdict | Rejected

  // What an observer of the agent sees: audit records (attempted, and whether they were written),
  // capability probes, and calls of the two diagnostics with the command each executed, if any.
  datatype Event =
    | Audit(stage: Stage, verdict: Verdict, code: Option<Code>, recorded: bool, id: string, operation: Operation)
    | Probing
    | Ran(op: Operation, argv: Option<seq<string>>)

  // ---------------------------------------------------------------------
  // The capability cache
  // ---------------------------------------------------------------------

  datatype Cache = Cache(loaded: bool, identity: string, result: Probe)

  const NOTHING_CACHED := Cache(false, "", ProbeFailed(None))

  /** The identity loadCapabilities stores: the empty string when it could not be read. */
  function Key(w: World, i: Installation): string {
    match w.identity(i)
    case Some(s) => s
    case None => ""
  }

  /** This load runs the probe instead of answering from the cache. */
  predicate Fills(w: World, c: Cache, identify: Installation, refresh: bool) {
    !c.loaded || refresh || w.identity(identify).None? || w.identity(identify).value != c.identity
  }

  function Loaded(w: World, c: Cache, identify: Installation, probe: Installation, refresh: bool): Cache {
    if Fills(w, c, identify, refresh) then Cache(true, Key(w, identify), w.probe(probe)) else c
  }

  // ---------------------------------------------------------------------
  // Dispatch as functions
  // ---------------------------------------------------------------------

  datatype Decision = Reject(code: Code) | Ready(schema: string, spectraVersion: string)

  function CodeOr(code: Option<Code>, default: Code): Code {
    match code
    case Some(c) => c
    case None => default
  }

  /** prepareCompatible once the capabilities are known. */
  function Compatibility(p: Probe, op: Operation): Decision {
    match p
    case ProbeFailed(code) => Reject(CodeOr(code, IncompatibleSpectra))
    case Probed(caps) =>
      match ResultSchemaFor(caps, op)
      case Supports(schema) => Ready(schema, caps.spectraVersion)
      case Lacks(code) => Reject(CodeOr(code, IncompatibleSpectra))
  }

  /** The checks that precede the capability probe; None means the probe is consulted. */
  function Precheck(cfg: Config, req: Request): Option<Decision> {
    match req.operation
    case Health => Some(Ready("", ""))
    case Inspect =>
      if req.inspectParams.None? || req.inspectParams.value == [] then Some(Reject(InvalidRequest))
      else if !cfg.hasRunner then Some(Reject(Unavailable))
      else None
    case SnapshotCreate =>
      if !cfg.allowSnapshot then Some(Reject(PermissionDenied))
      else if req.snapshotParams.None? then Some(Reject(InvalidRequest))
      else if req.snapshotParams.value && !cfg.allowSnapshotApps then Some(Reject(PermissionDenied))
      else if !cfg.hasRunner then Some(Reject(Unavailable))
      else None
    case Unknown(_) => Some(Reject(UnsupportedOperation))
  }

  /** The outcome of prepare, given what loadCapabilities would answer. */
  function Prepared(cfg: Config, req: Request, p: Probe): Decision {
    match Precheck(cfg, req)
    case Some(d) => d
    case None => Compatibility(p, req.operation)
  }

  function Advertise(cfg: Config, caps: Capabilities, op: Operation): seq<Advertised> {
    if op == SnapshotCreate && !cfg.allowSnapshot then []
    else
      match ResultSchemaFor(caps, op)
      case Supports(schema) => [Advertised(op, Some(schema))]
      case Lacks(_) => []
  }

  /** The health manifest, given what loadCapabilities answered. */
  function Manifest(cfg: Config, p: Probe): Outcome {
    var base := [Advertised(Health, None)];
    if cfg.hasRunner && p.Probed? then
      HealthReport(p.caps.spectraVersion,
                   base + Advertise(cfg, p.caps, Inspect) + Advertise(cfg, p.caps, SnapshotCreate))
    else HealthReport("", base)
  }

  function DiagnosticOutcome(r: RunResult, expired: bool, schema: string, spectraVersion: string): Outcome {
    match r
    case RunFailed(deadline) => Failed(if deadline || expired then Timeout else ExecutionFailed)
    case Output(data, valid, isNull) =>
      if !valid then Failed(if expired then Timeout else ExecutionFailed)
      else if isNull then Failed(ExecutionFailed)
      else Diagnostic(schema, spectraVersion, data)
  }

  /** The command a prepared diagnostic executes, if it gets that far. */
  ghost function Command(w: World, cfg: Config, req: Request): Option<seq<string>> {
    if !IsAbs(cfg.spectraPath) then None
    else if req.operation == Inspect && req.inspectParams.Some? then
      InspectCommand(w.files, cfg.roots, req.inspectParams.value)
    else if req.operation == SnapshotCreate && req.snapshotParams.Some? then
      Some(SnapshotArgv(req.snapshotParams.value))
    else None
  }

  function Execute(w: World, argv: Option<seq<string>>, at: Installation): RunResult {
    match argv
    case None => RunFailed(false)
    case Some(a) => w.run(at, a)
  }

  // The whole effect of one request.
  datatype Handled = Handled(cache: Cache, events: seq<Event>, response: Response)

  function AuditOf(cfg: Config, req: Request, stage: Stage, verdict: Verdict, code: Option<Code>,
                   fails: bool): seq<Event> {
    if cfg.hasAuditor then [Audit(stage, verdict, code, !fails, req.id, req.operation)] else []
  }

  function RejectEvents(cfg: Config, req: Request, code: Code, m: Moments): seq<Event> {
    AuditOf(cfg, req, Completed, Rejected, Some(code), m.endFails)
  }

  function CompletionEvents(cfg: Config, req: Request, o: Outcome, m: Moments): seq<Event> {
    if o.Failed? then AuditOf(cfg, req, Completed, FailedVerdict, Some(o.code), m.endFails)
    else AuditOf(cfg, req, Completed, Succeeded, None, m.endFails)
  }

  /** Some load of capabilities happens before the started record (inspect and snapshot). */
  predicate ProbesInPrepare(cfg: Config, req: Request) {
    req.defect.None? && Precheck(cfg, req).None?
  }

  function AfterPrepare(w: World, cfg: Config, c: Cache, req: Request, m: Moments): Cache {
    if ProbesInPrepare(cfg, req) then Loaded(w, c, m.identify, m.probe, false) else c
  }

  function PrepareEvents(w: World, cfg: Config, c: Cache, req: Request, m: Moments): seq<Event> {
    if ProbesInPrepare(cfg, req) && Fills(w, c, m.identify, false) then [Probing] else []
  }

  ghost function Handle(w: World, cfg: Config, c: Cache, req: Request, m: Moments): Handled {
    if req.defect.Some? then
      Handled(c, RejectEvents(cfg, req, req.defect.value, m), Response(req.id, Failed(req.defect.value)))
    else
      var c1 := AfterPrepare(w, cfg, c, req, m);
      var before := PrepareEvents(w, cfg, c, req, m);
      match Prepared(cfg, req, c1.result)
      case Reject(code) => Handled(c1, before + RejectEvents(cfg, req, code, m), Response(req.id, Failed(code)))
      case Ready(schema, spectraVersion) =>
        var started := before + AuditOf(cfg, req, Started, NoVerdict, None, m.startFails);
        if cfg.hasAuditor && m.startFails then Handled(c1, started, Response(req.id, Failed(Unavailable)))
        else Finish(w, cfg, c1, req, m, started, schema, spectraVersion)
  }

  // What runPrepared does to the cache, what it executes and what it answers.
  function AfterRun(w: World, cfg: Config, c: Cache, req: Request, m: Moments): Cache {
    if req.operation == Health && cfg.hasRunner then Loaded(w, c, m.identify, m.probe, true) else c
  }

  ghost function RunEvents(w: World, cfg: Config, req: Request): seq<Event> {
    if req.operation != Health then [Ran(req.operation, Command(w, cfg, req))]
    else if cfg.hasRunner then [Probing]
    else []
  }

  ghost function RunOutcome(w: World, cfg: Config, p: Probe, req: Request, m: Moments, schema: string,
                            spectraVersion: string): Outcome {
    if req.operation == Health then Manifest(cfg, p)
    else DiagnosticOutcome(Execute(w, Command(w, cfg, req), m.run), m.expired, schema, spectraVersion)
  }

  ghost function Finish(w: World, cfg: Config, c: Cache, req: Request, m: Moments, started: seq<Event>,
                        schema: string, spectraVersion: string): Handled
  {
    var c2 := AfterRun(w, cfg, c, req, m);
    var o := RunOutcome(w, cfg, c2.result, req, m, schema, spectraVersion);
    Handled(c2, started + RunEvents(w, cfg, req) + CompletionEvents(cfg, req, o, m), Response(req.id, o))
  }

  // ---------------------------------------------------------------------
  // The agent object
  // ---------------------------------------------------------------------

  class AgentServer {
    const w: World
    const cfg: Config
    var capsLoaded: bool
    var capsIdentity: string
    var capsResult: Probe          // capabilities and capsErr
    var events: seq<Event>

    constructor (w: World, cfg: Config)
      requires FilesOk(w.files)
      ensures this.w == w && this.cfg == cfg && Cached() == NOTHING_CACHED && events == []
    {
      this.w, this.cfg := w, cfg;
      capsLoaded, capsIdentity, capsResult, events := false, "", ProbeFailed(None), [];
    }

    function Cached(): Cache
      reads this
    {
      Cache(capsLoaded, capsIdentity, capsResult)
    }

    method Record(e: Event)
      modifies this`events
      ensures events == old(events) + [e]
    {
      events := events + [e];
    }

    /** audit: nothing without an auditor, otherwise one record that may fail. */
    method WriteAudit(req: Request, stage: Stage, verdict: Verdict, code: Option<Code>, fails: bool) returns (ok: bool)
      modifies this`events
      ensures events == old(events) + AuditOf(cfg, req, stage, verdict, code, fails)
      ensures ok <==> !cfg.hasAuditor || !fails
    {
      if !cfg.hasAuditor { return true; }
      Record(Audit(stage, verdict, code, !fails, req.id, req.operation));
      ok := !fails;
    }

    /** loadCapabilities. */
    method LoadCapabilities(m: Moments, refresh: bool) returns (p: Probe)
      modifies this
      ensures Cached() == Loaded(w, old(Cached()), m.identify, m.probe, refresh)
      ensures p == capsResult
      ensures events == old(events) + if Fills(w, old(Cached()), m.identify, refresh) then [Probing] else []
    {
      var again := refresh;
      var identity := w.identity(m.identify);
      if capsLoaded && !again && (identity.None? || identity.value != capsIdentity) {
        again := true;
      }
      if !capsLoaded || again {
        Record(Probing);
        capsResult := w.probe(m.probe);
        capsLoaded := true;
        capsIdentity := Key(w, m.identify);
      }
      p := capsResult;
    }

    method RejectRequest(req: Request, code: Code, m: Moments) returns (r: Response)
      modifies this`events
      ensures events == old(events) + RejectEvents(cfg, req, code, m)
      ensures r == Response(req.id, Failed(code))
    {
      var _ := WriteAudit(req, Completed, Rejected, Some(code), m.endFails);
      r := Response(req.id, Failed(code));
    }

    /** prepareCompatible and compatible. */
    method PrepareCompatible(req: Request, m: Moments) returns (d: Decision)
      requires cfg.hasRunner
      modifies this
      ensures Cached() == Loaded(w, old(Cached()), m.identify, m.probe, false)
      ensures events == old(events) + if Fills(w, old(Cached()), m.identify, false) then [Probing] else []
      ensures d == Compatibility(capsResult, req.operation)
    {
      var p := LoadCapabilities(m, false);
      match p
      case ProbeFailed(code) => d := Reject(CodeOr(code, IncompatibleSpectra));
      case Probed(caps) =>
        var lookup := ResultSchemaFor(caps, req.operation);
        if lookup.Supports? {
          d := Ready(lookup.schema, caps.spectraVersion);
        } else {
          d := Reject(CodeOr(lookup.code, IncompatibleSpectra));
        }
    }

    /** prepare and prepareSnapshot: policy first, then parameters, then compatibility. */
    method Prepare(req: Request, m: Moments) returns (d: Decision)
      requires req.defect.None?
      modifies this
      ensures Cached() == AfterPrepare(w, cfg, old(Cached()), req, m)
      ensures events == old(events) + PrepareEvents(w, cfg, old(Cached()), req, m)
      ensures d == Prepared(cfg, req, capsResult)
    {
      assert events == events + [];
      match req.operation
      case Health => d := Ready("", "");
      case Inspect =>
        if req.inspectParams.None? || |req.inspectParams.value| == 0 { return Reject(InvalidRequest); }
        if !cfg.hasRunner { return Reject(Unavailable); }
        d := PrepareCompatible(req, m);
      case SnapshotCreate =>
        if !cfg.allowSnapshot { return Reject(PermissionDenied); }
        if req.snapshotParams.None? { return Reject(InvalidRequest); }
        if req.snapshotParams.value && !cfg.allowSnapshotApps { return Reject(PermissionDenied); }
        if !cfg.hasRunner { return Reject(Unavailable); }
        d := PrepareCompatible(req, m);
      case Unknown(_) => d := Reject(UnsupportedOperation);
    }

    /** Runner.Inspect and Runner.SnapshotCreate. */
    method RunDiagnostic(req: Request, m: Moments, schema: string, spectraVersion: string) returns (o: Outcome)
      requires FilesOk(w.files)
      requires || (req.operation == Inspect && req.inspectParams.Some?)
               || (req.operation == SnapshotCreate && req.snapshotParams.Some?)
      modifies this`events
      ensures events == old(events) + [Ran(req.operation, Command(w, cfg, req))]
      ensures o == DiagnosticOutcome(Execute(w, Command(w, cfg, req), m.run), m.expired, schema, spectraVersion)
    {
      var argv;
      if req.operation == Inspect {
        argv := InspectArgv(w.files, cfg.roots, req.inspectParams.value);
      } else {
        argv := Some(SnapshotArgv(req.snapshotParams.value));
      }
      if !IsAbs(cfg.spectraPath) {
        argv := None;
      }
      Record(Ran(req.operation, argv));
      o := DiagnosticOutcome(Execute(w, argv, m.run), m.expired, schema, spectraVersion);
    }

    /** health. */
    method HealthManifest(m: Moments) returns (o: Outcome)
      modifies this
      ensures Cached() == if cfg.hasRunner then Loaded(w, old(Cached()), m.identify, m.probe, true) else old(Cached())
      ensures events == old(events) + if cfg.hasRunner then [Probing] else []
      ensures o == Manifest(cfg, capsResult)
    {
      var p := ProbeFailed(None);
      if cfg.hasRunner {
        p := LoadCapabilities(m, true);
      }
      var operations := [Advertised(Health, None)];
      var version := "";
      if p.Probed? {
        version := p.caps.spectraVersion;
        operations := operations + Advertise(cfg, p.caps, Inspect);
        operations := operations + Advertise(cfg, p.caps, SnapshotCreate);
      }
      o := HealthReport(version, operations);
    }

    /** runPrepared; its fallback for other operations is dead. */
    method RunPrepared(req: Request, m: Moments, schema: string, spectraVersion: string) returns (o: Outcome)
      requires FilesOk(w.files)
      requires match req.operation
               case Health => true
               case Inspect => req.inspectParams.Some?
               case SnapshotCreate => req.snapshotParams.Some?
               case Unknown(_) => false
      modifies this
      ensures Cached() == AfterRun(w, cfg, old(Cached()), req, m)
      ensures events == old(events) + RunEvents(w, cfg, req)
      ensures o == RunOutcome(w, cfg, capsResult, req, m, schema, spectraVersion)
      ensures req.operation != Health ==> forall argv, data ::
                Command(w, cfg, req) == Some(argv) && w.run(m.run, argv) == Output(data, true, false) ==>
                o == Diagnostic(schema, spectraVersion, data)
      ensures req.operation != Health && !o.Diagnostic? ==>
                o == Failed(Timeout) || o == Failed(ExecutionFailed)
      ensures req.operation != Health && o == Failed(Timeout) && !m.expired ==>
                Command(w, cfg, req).Some? && w.run(m.run, Command(w, cfg, req).value) == RunFailed(true)
    {
      match req.operation {
        case Health => o := HealthManifest(m);
        case Inspect => o := RunDiagnostic(req, m, schema, spectraVersion);
        case SnapshotCreate => o := RunDiagnostic(req, m, schema, spectraVersion);
        case Unknown(_) =>
          o := Failed(Internal);
          assert false;
      }
    }

    method CompleteAudit(req: Request, o: Outcome, m: Moments)
      modifies this`events
      ensures events == old(events) + CompletionEvents(cfg, req, o, m)
    {
      if o.Failed? {
        var _ := WriteAudit(req, Completed, FailedVerdict, Some(o.code), m.endFails);
      } else {
        var _ := WriteAudit(req, Completed, Succeeded, None, m.endFails);
      }
    }

    /** Handle. */
    method HandleRequest(req: Request, m: Moments) returns (r: Response)
      requires FilesOk(w.files)
      modifies this
      ensures
        var h := Handle(w, cfg, old(Cached()), req, m);
        Cached() == h.cache && events == old(events) + h.events && r == h.response
    {
      hide RejectEvents, CompletionEvents, RunEvents, RunOutcome, AuditOf, AfterRun, AfterPrepare, PrepareEvents;
      if req.defect.Some? {
        r := RejectRequest(req, req.defect.value, m);
        return;
      }
      var d := Prepare(req, m);
      if d.Reject? {
        r := RejectRequest(req, d.code, m);
        return;
      }
      var started := WriteAudit(req, Started, NoVerdict, None, m.startFails);
      if !started {
        return Response(req.id, Failed(Unavailable));
      }
      var o := RunPrepared(req, m, d.schema, d.spectraVersion);
      CompleteAudit(req, o, m);
      r := Response(req.id, o);
    }
  }
}
