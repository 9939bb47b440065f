// What the audit trail of a session can look like, and which commands appear in it.
module AuditGrammar {
  import opened Common
  import opened GoText
  import opened Protocol
  import opened LocalSpectra
  import opened Agent

  // A reader of the trail: between requests, inside a started one, or lost.
  datatype Phase = Idle | Open(id: string, op: Operation, ran: bool) | Lost

  function Advance(ph: Phase, e: Event): Phase {
    match (ph, e)
    case (Idle, Probing) => Idle
    case (Idle, Audit(Started, NoVerdict, None, recorded, id, op)) => if recorded then Open(id, op, false) else Idle
    case (Idle, Audit(Completed, Rejected, Some(_), _, _, _)) => Idle
    case (Open(id, op, ran), Probing) => if op == Health && !ran then Open(id, op, true) else Lost
    case (Open(id, op, ran), Ran(o, _)) => if o == op && op != Health && !ran then Open(id, op, true) else Lost
    case (Open(id, op, _), Audit(Completed, Succeeded, None, _, i, o)) => if i == id && o == op then Idle else Lost
    case (Open(id, op, _), Audit(Completed, FailedVerdict, Some(_), _, i, o)) =>
      if i == id && o == op then Idle else Lost
    case _ => Lost
  }

  function Scan(ph: Phase, es: seq<Event>): Phase
    decreases es
  {
    if es == [] then ph else Scan(Advance(ph, es[0]), es[1..])
  }

  lemma {:induction false} ScanConcat(ph: Phase, a: seq<Event>, b: seq<Event>)
    ensures Scan(ph, a + b) == Scan(Scan(ph, a), b)
    decreases a
  {
    if a == [] {
      assert a + b == b;
    } else {
      ScanConcat(Advance(ph, a[0]), a[1..], b);
      assert (a + b)[1..] == a[1..] + b;
    }
  }

  lemma {:induction false} LostStaysLost(es: seq<Event>)
    ensures Scan(Lost, es) == Lost
  {
    if es != [] {
      LostStaysLost(es[1..]);
    }
  }

  lemma ScanSnoc(ph: Phase, es: seq<Event>, k: nat)
    requires k < |es|
    ensures Scan(ph, es[..k + 1]) == Advance(Scan(ph, es[..k]), es[k])
    ensures Scan(ph, es) == Scan(Scan(ph, es[..k + 1]), es[k + 1..])
    ensures Scan(ph, es) != Lost ==> Scan(ph, es[..k + 1]) != Lost
  {
    assert es[..k + 1] == es[..k] + [es[k]];
    ScanConcat(ph, es[..k], [es[k]]);
    assert Scan(Scan(ph, es[..k]), [es[k]]) == Advance(Scan(ph, es[..k]), es[k]);
    assert es == es[..k + 1] + es[k + 1..];
    ScanConcat(ph, es[..k + 1], es[k + 1..]);
    LostStaysLost(es[k + 1..]);
  }

  /**
   * In any trail the reader can follow to its end, a diagnostic call stands between a recorded started and the
   * completed of the same request, with nothing else between them.
   */
  lemma RunsAreBracketed(es: seq<Event>, k: nat)
    requires Scan(Idle, es) == Idle && k < |es| && es[k].Ran?
    ensures 0 < k < |es| - 1 && es[k - 1].Audit? && es[k + 1].Audit?
    ensures es[k - 1] == Audit(Started, NoVerdict, None, true, es[k - 1].id, es[k].op)
    ensures es[k + 1].stage == Completed && es[k + 1].verdict in {Succeeded, FailedVerdict}
    ensures es[k + 1].id == es[k - 1].id && es[k + 1].operation == es[k].op
  {
    hide Scan;
    ScanSnoc(Idle, es, k);
    OpenComesFromStart(es, k);
    var open := Scan(Idle, es[..k]);
    assert Scan(Idle, es[..k + 1]) == Open(open.id, open.op, true);
    assert es[..|es|] == es;
    ScanSnoc(Idle, es, k + 1);
  }

  lemma OpenComesFromStart(es: seq<Event>, k: nat)
    requires k <= |es| && Scan(Idle, es[..k]).Open? && !Scan(Idle, es[..k]).ran
    ensures k > 0 && es[k - 1] == Audit(Started, NoVerdict, None, true, Scan(Idle, es[..k]).id, Scan(Idle, es[..k]).op)
  {
    assert es[..0] == [];
    if k > 0 {
      hide Scan;
      ScanSnoc(Idle, es, k - 1);
    }
  }

  // ---------------------------------------------------------------------
  // One request
  // ---------------------------------------------------------------------

  /** The record that tells how a request ended: the response and the record agree. */
  predicate Tells(e: Event, r: Response) {
    && e.Audit? && e.id == r.id
    && match r.outcome
       case Failed(code) =>
         || (e.stage == Completed && e.verdict in {Rejected, FailedVerdict} && e.code == Some(code))
         || (e.stage == Started && !e.recorded && code == Unavailable)
       case _ => e.stage == Completed && e.verdict == Succeeded && e.code == None
  }

  lemma ScanProbes(probes: seq<Event>, rest: seq<Event>)
    requires probes == [] || probes == [Probing]
    ensures Scan(Idle, probes + rest) == Scan(Idle, rest)
  {
    ScanConcat(Idle, probes, rest);
  }

  lemma FinishedTrail(w: World, cfg: Config, c: Cache, req: Request, m: Moments, before: seq<Event>, schema: string,
                      version: string)
    requires cfg.hasAuditor && !m.startFails && !req.operation.Unknown?
    requires before == [] || before == [Probing]
    ensures
      var h := Finish(w, cfg, c, req, m, before + AuditOf(cfg, req, Started, NoVerdict, None, m.startFails), schema,
          version);
      h.events != [] && Scan(Idle, h.events) == Idle && Tells(h.events[|h.events| - 1], h.response)
  {
    hide Scan, Advance, RunOutcome;
    var start := AuditOf(cfg, req, Started, NoVerdict, None, m.startFails);
    var h := Finish(w, cfg, c, req, m, before + start, schema, version);
    var end := CompletionEvents(cfg, req, h.response.outcome, m);
    var tail := start + RunEvents(w, cfg, req) + end;
    assert h.events == before + tail;
    ScanProbes(before, tail);
    BracketScans(start[0], RunEvents(w, cfg, req), end[0]);
    assert tail == [start[0]] + RunEvents(w, cfg, req) + [end[0]];
  }

  lemma BracketScans(start: Event, body: seq<Event>, end: Event)
    requires start.Audit? && start == Audit(Started, NoVerdict, None, true, start.id, start.operation)
    requires end.Audit? && end.stage == Completed && end.id == start.id && end.operation == start.operation
    requires (end.verdict == Succeeded && end.code.None?) || (end.verdict == FailedVerdict && end.code.Some?)
    requires || body == []
             || (body == [Probing] && start.operation == Health)
             || (|body| == 1 && body[0].Ran? && body[0].op == start.operation != Health)
    ensures Scan(Idle, [start] + body + [end]) == Idle
  {
    var es := [start] + body + [end];
    var open := Open(start.id, start.operation, false);
    assert es[1..] == body + [end] && Advance(Idle, es[0]) == open;
    if body != [] {
      assert (body + [end])[1..] == [end];
      assert Advance(open, body[0]) == Open(start.id, start.operation, true);
    }
    assert Scan(Open(start.id, start.operation, body != []), [end]) == Idle;
    assert body == [] ==> body + [end] == [end];
  }

  /** Each request leaves a trail of the grammar whose last record agrees with the response. */
  lemma OneRequestTrail(w: World, cfg: Config, c: Cache, req: Request, m: Moments)
    requires cfg.hasAuditor
    ensures
      var h := Handle(w, cfg, c, req, m);
      && h.events != [] && Scan(Idle, h.events) == Idle
      && Tells(h.events[|h.events| - 1], h.response) && h.response.id == req.id
  {
    if req.defect.None? {
      var c1, before := AfterPrepare(w, cfg, c, req, m), PrepareEvents(w, cfg, c, req, m);
      match Prepared(cfg, req, c1.result) {
        case Reject(code) => ScanProbes(before, RejectEvents(cfg, req, code, m));
        case Ready(schema, version) =>
          if m.startFails {
            ScanProbes(before, AuditOf(cfg, req, Started, NoVerdict, None, m.startFails));
          } else {
            FinishedTrail(w, cfg, c1, req, m, before, schema, version);
          }
      }
    }
  }

  /** The last record names the request's operation, is written unless its write failed, and says how far it got. */
  lemma LastRecordNamesRequest(w: World, cfg: Config, c: Cache, req: Request, m: Moments)
    requires cfg.hasAuditor
    ensures
      var h := Handle(w, cfg, c, req, m);
      h.events != [] &&
      var last := h.events[|h.events| - 1];
      && last.Audit? && last.id == req.id && last.operation == req.operation
      && (last.recorded <==> if last.stage == Started then !m.startFails else !m.endFails)
      && (last.stage == Started ==> m.startFails)
      && (last.verdict == Rejected <==>
            req.defect.Some? || Prepared(cfg, req, AfterPrepare(w, cfg, c, req, m).result).Reject?)
  {
  }

  // ---------------------------------------------------------------------
  // The commands
  // ---------------------------------------------------------------------

  /** The command an event executed, if any. */
  function Executed(cfg: Config, e: Event): Option<seq<string>> {
    match e
    case Probing => if IsAbs(cfg.spectraPath) then Some(CAPABILITIES_ARGV) else None
    case Ran(_, argv) => argv
    case Audit(_, _, _, _, _, _) => None
  }

  ghost predicate IsInspect(w: World, cfg: Config, argv: seq<string>) {
    exists paths :: paths != [] && IsInspectArgv(w.files, cfg.roots, paths, argv)
  }

  // The three shapes, each with what the local policy demands of it.
  ghost predicate Disciplined(w: World, cfg: Config, argv: seq<string>) {
    || argv == CAPABILITIES_ARGV
    || (argv == ["snapshot", "--json", "--no-apps"] && cfg.allowSnapshot)
    || (argv == ["snapshot", "--json"] && cfg.allowSnapshot && cfg.allowSnapshotApps)
    || IsInspect(w, cfg, argv)
  }

  ghost predicate AllDisciplined(w: World, cfg: Config, es: seq<Event>) {
    forall e :: e in es && Executed(cfg, e).Some? ==> Disciplined(w, cfg, Executed(cfg, e).value)
  }

  lemma InspectCommandIsInspect(fs: Files, roots: seq<string>, paths: seq<string>)
    requires InspectCommand(fs, roots, paths).Some?
    ensures IsInspectArgv(fs, roots, paths, InspectCommand(fs, roots, paths).value)
  {
    var argv := InspectCommand(fs, roots, paths).value;
    forall i | 0 <= i < |paths| ensures IsArgument(fs, roots, paths[i], argv[i + 1]) {
      var p := fs.evalSymlinks(paths[i]).value;
      assert Admissible(fs, roots, paths[i], p) && argv[i + 1] == Render(p);
    }
  }

  /** A diagnostic command comes from a request that prepare accepted. */
  lemma CommandsComeFromReady(w: World, cfg: Config, c: Cache, req: Request, m: Moments, e: Event)
    requires e in Handle(w, cfg, c, req, m).events && e.Ran?
    ensures req.operation != Health && Prepared(cfg, req, AfterPrepare(w, cfg, c, req, m).result).Ready?
    ensures e == Ran(req.operation, Command(w, cfg, req))
  {
  }

  lemma OneRequestCommands(w: World, cfg: Config, c: Cache, req: Request, m: Moments)
    ensures AllDisciplined(w, cfg, Handle(w, cfg, c, req, m).events)
  {
    var es := Handle(w, cfg, c, req, m).events;
    forall e | e in es && Executed(cfg, e).Some? ensures Disciplined(w, cfg, Executed(cfg, e).value) {
      if e.Ran? {
        CommandsComeFromReady(w, cfg, c, req, m, e);
        ReadyCommand(w, cfg, req, AfterPrepare(w, cfg, c, req, m).result);
      }
    }
  }

  lemma ReadyCommand(w: World, cfg: Config, req: Request, p: Probe)
    requires Prepared(cfg, req, p).Ready? && req.operation != Health
    ensures Command(w, cfg, req).Some? ==> Disciplined(w, cfg, Command(w, cfg, req).value)
  {
    if Command(w, cfg, req).Some? {
      match req.operation {
        case Inspect => InspectCommandIsInspect(w.files, cfg.roots, req.inspectParams.value);
        case SnapshotCreate =>
          assert ["snapshot", "--json"] + [] == ["snapshot", "--json"];
          assert ["snapshot", "--json"] + ["--no-apps"] == ["snapshot", "--json", "--no-apps"];
      }
    }
  }

  /** A full snapshot is never confused with another command: the policy is needed for that very argv. */
  lemma FullSnapshotNeedsBothPolicies(w: World, cfg: Config, argv: seq<string>)
    requires Disciplined(w, cfg, argv) && argv != [] && argv[0] == "snapshot"
    ensures cfg.allowSnapshot && ("--no-apps" !in argv ==> cfg.allowSnapshotApps)
  {
    assert argv[0][0] == 's' && CAPABILITIES_ARGV[0][0] == 'c' && "--json"[0] == '-';
    assert !IsInspect(w, cfg, argv);
    assert argv == ["snapshot", "--json", "--no-apps"] ==> argv[2] == "--no-apps";
  }
}
