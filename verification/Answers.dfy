// What the agent answers, said of the installed binary: which requests it starts, what it executes for them, and what
// comes back (internal/agent/agent.go and local_spectra.go).
module Answers {
  import opened Common
  import opened GoText
  import opened Protocol
  import opened LocalSpectra
  import opened Agent
  import AuditGrammar
  import CapabilityCache

  // ---------------------------------------------------------------------
  // Which requests are started
  // ---------------------------------------------------------------------

  /** What the binary offers for a diagnostic. */
  function Offer(caps: Capabilities, op: Operation): SchemaLookup {
    if op == Inspect then caps.inspect else caps.snapshot
  }

  /** The local policy and the parameters allow the request. */
  predicate Permitted(cfg: Config, req: Request) {
    match req.operation
    case Health => true
    case Inspect => req.inspectParams.Some? && req.inspectParams.value != []
    case SnapshotCreate =>
      cfg.allowSnapshot && req.snapshotParams.Some? && (req.snapshotParams == Some(true) ==> cfg.allowSnapshotApps)
    case Unknown(_) => false
  }

  predicate Offered(p: Probe, op: Operation) {
    p.Probed? && Offer(p.caps, op).Supports?
  }

  /** A well-formed request is accepted exactly when policy and parameters allow it and the binary offers it. */
  lemma AcceptedIff(cfg: Config, req: Request, p: Probe)
    ensures Prepared(cfg, req, p).Ready? <==>
              Permitted(cfg, req) && (req.operation == Health || (cfg.hasRunner && Offered(p, req.operation)))
  {
  }

  predicate IsDiagnostic(op: Operation) {
    op == Inspect || op == SnapshotCreate
  }

  /** A diagnostic of this request was called, with this command. */
  ghost predicate Called(h: Handled, op: Operation, argv: Option<seq<string>>) {
    Ran(op, argv) in h.events
  }

  /** The diagnostic of an accepted request is called unless its started record could not be written. */
  lemma CalledIff(w: World, cfg: Config, c: Cache, req: Request, m: Moments)
    requires IsDiagnostic(req.operation)
    ensures
      var h := Handle(w, cfg, c, req, m);
      (exists argv :: Called(h, req.operation, argv)) <==>
        && req.defect.None? && Permitted(cfg, req) && cfg.hasRunner && Offered(h.cache.result, req.operation)
        && (cfg.hasAuditor ==> !m.startFails)
  {
    var h := Handle(w, cfg, c, req, m);
    OneCommand(w, cfg, c, req, m);
    if req.defect.None? {
      AcceptedIff(cfg, req, AfterPrepare(w, cfg, c, req, m).result);
    }
  }

  /** Where the calls of a request come from: at most one, with the request's own command. */
  lemma OneCommand(w: World, cfg: Config, c: Cache, req: Request, m: Moments)
    requires IsDiagnostic(req.operation)
    ensures
      var h := Handle(w, cfg, c, req, m);
      var ready := req.defect.None? && Prepared(cfg, req, h.cache.result).Ready?;
      var started := ready && (cfg.hasAuditor ==> !m.startFails);
      && h.cache == AfterPrepare(w, cfg, c, req, m)
      && (started ==> Called(h, req.operation, Command(w, cfg, req)))
      && forall op, argv :: Called(h, op, argv) ==> started && op == req.operation && argv == Command(w, cfg, req)
  {
    var h := Handle(w, cfg, c, req, m);
    if req.defect.None? && Prepared(cfg, req, h.cache.result).Ready? && (cfg.hasAuditor ==> !m.startFails) {
      var d := Prepared(cfg, req, h.cache.result);
      var start := PrepareEvents(w, cfg, c, req, m) + AuditOf(cfg, req, Started, NoVerdict, None, m.startFails);
      var o := RunOutcome(w, cfg, h.cache.result, req, m, d.schema, d.spectraVersion);
      assert h.events == start + [Ran(req.operation, Command(w, cfg, req))] + CompletionEvents(cfg, req, o, m);
      assert h.events[|start|] == Ran(req.operation, Command(w, cfg, req));
    }
  }

  // ---------------------------------------------------------------------
  // What is executed
  // ---------------------------------------------------------------------

  /** An app bundle on disk below one of the allowed roots, symbolic links resolved: what may be inspected. */
  ghost predicate Inspectable(fs: Files, roots: seq<string>, path: string) {
    && path != "" && path[0] == '/' && fs.evalSymlinks(path).Some?
    && var p := fs.evalSymlinks(path).value;
       && HasSuffix(Render(p), ".app") && fs.isDir(p) == Some(true)
       && exists root :: root in roots && fs.evalSymlinks(root).Some? && fs.evalSymlinks(root).value <= p
  }

  /** --json and the resolved paths, in the order of the request. */
  ghost predicate NamesThePaths(fs: Files, paths: seq<string>, argv: seq<string>) {
    && |argv| == |paths| + 1 && argv[0] == "--json"
    && forall i :: 0 <= i < |paths| ==>
         fs.evalSymlinks(paths[i]).Some? && argv[i + 1] == "/" + Join(fs.evalSymlinks(paths[i]).value)
  }

  lemma InspectableIff(fs: Files, roots: seq<string>, path: string, p: Path)
    ensures Admissible(fs, roots, path, p) <==> Inspectable(fs, roots, path) && fs.evalSymlinks(path) == Some(p)
  {
    assert IsAbs(path) <==> path != "" && path[0] == '/';
  }

  lemma InspectArgvIff(fs: Files, roots: seq<string>, paths: seq<string>, argv: seq<string>)
    ensures IsInspectArgv(fs, roots, paths, argv) <==>
              (forall i :: 0 <= i < |paths| ==> Inspectable(fs, roots, paths[i])) && NamesThePaths(fs, paths, argv)
  {
    hide Inspectable, Admissible;
    if IsInspectArgv(fs, roots, paths, argv) {
      forall i | 0 <= i < |paths|
        ensures Inspectable(fs, roots, paths[i]) && fs.evalSymlinks(paths[i]).Some?
        ensures argv[i + 1] == Render(fs.evalSymlinks(paths[i]).value)
      {
        assert IsArgument(fs, roots, paths[i], argv[i + 1]);
        var p :| Admissible(fs, roots, paths[i], p) && argv[i + 1] == Render(p);
        InspectableIff(fs, roots, paths[i], p);
      }
    }
    if (forall i :: 0 <= i < |paths| ==> Inspectable(fs, roots, paths[i])) && NamesThePaths(fs, paths, argv) {
      forall i | 0 <= i < |paths| ensures IsArgument(fs, roots, paths[i], argv[i + 1]) {
        InspectableIff(fs, roots, paths[i], fs.evalSymlinks(paths[i]).value);
      }
    }
  }

  lemma InspectArgvExists(fs: Files, roots: seq<string>, paths: seq<string>) returns (argv: seq<string>)
    requires forall i :: 0 <= i < |paths| ==> Inspectable(fs, roots, paths[i])
    ensures IsInspectArgv(fs, roots, paths, argv)
  {
    argv := ["--json"] + seq(|paths|, i requires 0 <= i < |paths| && fs.evalSymlinks(paths[i]).Some? =>
                               "/" + Join(fs.evalSymlinks(paths[i]).value));
    InspectArgvIff(fs, roots, paths, argv);
  }

  /**
   * A snapshot command asks for apps exactly when the request does; an inspect command names the requested paths in
   * order, resolved and admissible, and is executed exactly when there is such a command.
   */
  lemma CommandFollowsRequest(w: World, cfg: Config, c: Cache, req: Request, m: Moments, argv: Option<seq<string>>)
    requires Called(Handle(w, cfg, c, req, m), req.operation, argv) && IsDiagnostic(req.operation)
    ensures req.operation == SnapshotCreate ==>
      && (argv.Some? <==> IsAbs(cfg.spectraPath))
      && (argv.Some? && req.snapshotParams == Some(true) ==> argv.value == ["snapshot", "--json"])
      && (argv.Some? && req.snapshotParams == Some(false) ==> argv.value == ["snapshot", "--json", "--no-apps"])
    ensures req.operation == Inspect ==>
      && req.inspectParams.Some?
      && var paths := req.inspectParams.value;
         && (argv.Some? <==>
               IsAbs(cfg.spectraPath) && forall i :: 0 <= i < |paths| ==> Inspectable(w.files, cfg.roots, paths[i]))
         && (argv.Some? ==> NamesThePaths(w.files, paths, argv.value))
  {
    OneCommand(w, cfg, c, req, m);
    AcceptedIff(cfg, req, Handle(w, cfg, c, req, m).cache.result);
    hide Handle, Inspectable;
    if req.operation == Inspect {
      var paths := req.inspectParams.value;
      InspectCommandIff(w.files, cfg.roots, paths);
      if argv.Some? {
        InspectArgvIff(w.files, cfg.roots, paths, argv.value);
      }
      if forall i :: 0 <= i < |paths| ==> Inspectable(w.files, cfg.roots, paths[i]) {
        var a := InspectArgvExists(w.files, cfg.roots, paths);
      }
    }
  }

  lemma InspectCommandIff(fs: Files, roots: seq<string>, paths: seq<string>)
    ensures InspectCommand(fs, roots, paths).Some? <==> exists a :: IsInspectArgv(fs, roots, paths, a)
    ensures InspectCommand(fs, roots, paths).Some? ==>
              IsInspectArgv(fs, roots, paths, InspectCommand(fs, roots, paths).value)
  {
    if InspectCommand(fs, roots, paths).Some? {
      AuditGrammar.InspectCommandIsInspect(fs, roots, paths);
    }
    if exists a :: IsInspectArgv(fs, roots, paths, a) {
      var a :| IsInspectArgv(fs, roots, paths, a);
      InspectCommandUnique(fs, roots, paths, a);
    }
  }

  // ---------------------------------------------------------------------
  // What comes back
  // ---------------------------------------------------------------------

  /** The run of a command ended because time was up: its own deadline, or an error when the request's had passed. */
  predicate TimedOut(w: World, argv: Option<seq<string>>, m: Moments) {
    match argv
    case None => m.expired
    case Some(a) =>
      match w.run(m.run, a)
      case RunFailed(deadline) => deadline || m.expired
      case Output(_, valid, _) => !valid && m.expired
  }

  /**
   * The answer of a diagnostic is the output of the executed command exactly when that is JSON and not null, under the
   * schema and the version of the capabilities its own load returned.
   */
  lemma AnswerIsTheOutput(w: World, cfg: Config, c: Cache, req: Request, m: Moments, schema: string, version: string,
                          data: Bytes)
    requires IsDiagnostic(req.operation)
    ensures
      var h := Handle(w, cfg, c, req, m);
      h.response.outcome == Diagnostic(schema, version, data) <==>
        && (exists argv :: Called(h, req.operation, Some(argv)) && w.run(m.run, argv) == Output(data, true, false))
        && h.cache.result.Probed?
        && Offer(h.cache.result.caps, req.operation) == Supports(schema)
        && h.cache.result.caps.spectraVersion == version
  {
    OneCommand(w, cfg, c, req, m);
  }

  /** A called diagnostic without an answer timed out, or else failed to execute; without a call there is no answer. */
  lemma FailedRunsAreTold(w: World, cfg: Config, c: Cache, req: Request, m: Moments)
    requires IsDiagnostic(req.operation)
    ensures
      var h := Handle(w, cfg, c, req, m);
      && (forall argv :: Called(h, req.operation, argv) ==>
            && (h.response.outcome == Failed(Timeout) <==> TimedOut(w, argv, m))
            && (h.response.outcome.Diagnostic? || h.response.outcome in {Failed(Timeout), Failed(ExecutionFailed)}))
      && ((forall argv :: !Called(h, req.operation, argv)) ==> h.response.outcome.Failed?)
  {
    OneCommand(w, cfg, c, req, m);
  }

  /**
   * The code of a request that is not started: the first of malformed, denied by policy or parameters in the order of
   * the source, no runner, what the probe says, and the audit log.
   */
  lemma RefusalCodes(w: World, cfg: Config, c: Cache, req: Request, m: Moments)
    ensures
      var h := Handle(w, cfg, c, req, m);
      var o := h.response.outcome;
      if req.defect.Some? then o == Failed(req.defect.value)
      else if !Permitted(cfg, req) then
        && (req.operation.Unknown? ==> o == Failed(UnsupportedOperation))
        && (req.operation == Inspect ==> o == Failed(InvalidRequest))
        && (req.operation == SnapshotCreate ==>
              o == Failed(if cfg.allowSnapshot && req.snapshotParams.None? then InvalidRequest else PermissionDenied))
      else if req.operation != Health && !cfg.hasRunner then o == Failed(Unavailable)
      else if req.operation != Health && h.cache.result.ProbeFailed? then
        var reason := h.cache.result.code;
        o == Failed(if reason.Some? then reason.value else IncompatibleSpectra)
      else if req.operation != Health && Offer(h.cache.result.caps, req.operation).Lacks? then
        var reason := Offer(h.cache.result.caps, req.operation).code;
        o == Failed(if reason.Some? then reason.value else IncompatibleSpectra)
      else cfg.hasAuditor && m.startFails ==> o == Failed(Unavailable)
  {
    if req.defect.None? && IsDiagnostic(req.operation) {
      OneCommand(w, cfg, c, req, m);
    }
  }

  // ---------------------------------------------------------------------
  // What health tells
  // ---------------------------------------------------------------------

  lemma StartedHealthReports(w: World, cfg: Config, c: Cache, req: Request, m: Moments)
    requires req.operation == Health && req.defect.None? && (cfg.hasAuditor ==> !m.startFails)
    ensures Handle(w, cfg, c, req, m).response.outcome
         == if cfg.hasRunner then Manifest(cfg, w.probe(m.probe)) else HealthReport("", [Advertised(Health, None)])
  {
  }

  /**
   * A health request that is started reports the version of the binary it probed, itself, and the diagnostics the
   * binary offers with their schemas, snapshots only as far as the policy allows them.
   */
  lemma HealthTells(w: World, cfg: Config, c: Cache, req: Request, m: Moments)
    requires req.operation == Health && req.defect.None? && (cfg.hasAuditor ==> !m.startFails)
    ensures
      var o := Handle(w, cfg, c, req, m).response.outcome;
      var p := w.probe(m.probe);
      && o.HealthReport?
      && o.spectraVersion == (if cfg.hasRunner && p.Probed? then p.caps.spectraVersion else "")
      && Advertised(Health, None) in o.operations
      && forall a :: a in o.operations && a.operation != Health ==> IsDiagnostic(a.operation) && a.schema.Some?
    ensures
      var o := Handle(w, cfg, c, req, m).response.outcome;
      var p := w.probe(m.probe);
      forall op, schema :: IsDiagnostic(op) ==>
        (Advertised(op, Some(schema)) in o.operations <==>
           && cfg.hasRunner && p.Probed? && Offer(p.caps, op) == Supports(schema)
           && (op == SnapshotCreate ==> cfg.allowSnapshot))
  {
    StartedHealthReports(w, cfg, c, req, m);
    hide Handle;
  }

  /**
   * Over a run with honest identities: the schema and the version of every answer are those an answered health request
   * reported, before or after it, as long as the same binary is installed.
   */
  lemma AnswersNameTheManifest(w: World, cfg: Config, calls: seq<CapabilityCache.Call>, j: nat, n: nat)
    requires CapabilityCache.Honest(w) && j < |calls| && n < |calls|
    requires forall i :: 0 <= i < |calls| ==> calls[i].m.identify == calls[i].m.probe
    requires calls[j].req.operation == Health
             && CapabilityCache.Answer(w, cfg, calls, j).response.outcome.HealthReport?
    requires CapabilityCache.SameBinary(w, calls[j].m.probe, calls[n].m.probe)
    requires IsDiagnostic(calls[n].req.operation)
             && CapabilityCache.Answer(w, cfg, calls, n).response.outcome.Diagnostic?
    ensures
      var report := CapabilityCache.Answer(w, cfg, calls, j).response.outcome;
      var answer := CapabilityCache.Answer(w, cfg, calls, n).response.outcome;
      && answer.spectraVersion == report.spectraVersion
      && Advertised(calls[n].req.operation, Some(answer.schema)) in report.operations
  {
    var health, call := calls[j], calls[n];
    CapabilityCache.CachingRefinesProbing(w, cfg, calls, j);
    CapabilityCache.CachingRefinesProbing(w, cfg, calls, n);
    HealthTells(w, cfg, NOTHING_CACHED, health.req, health.m);
    var answer := CapabilityCache.Answer(w, cfg, calls, n).response.outcome;
    AnswerIsTheOutput(w, cfg, NOTHING_CACHED, call.req, call.m, answer.schema, answer.spectraVersion, answer.data);
    CalledIff(w, cfg, NOTHING_CACHED, call.req, call.m);
    FreshProbe(w, cfg, call);
    hide Handle;
  }

  lemma FreshProbe(w: World, cfg: Config, call: CapabilityCache.Call)
    requires CapabilityCache.Fresh(w, cfg, call).response.outcome.Diagnostic? && IsDiagnostic(call.req.operation)
    ensures CapabilityCache.Fresh(w, cfg, call).cache.result == w.probe(call.m.probe)
  {
  }
}
