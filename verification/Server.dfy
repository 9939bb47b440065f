// The request loop of one session (internal/agent/server.go).
module Server {
  import opened Common
  import opened Protocol
  import opened LocalSpectra
  import opened Agent
  import opened AuditGrammar

  // What one read of the stream yields: a message that decodes to a request or not, a message over the size
  // limit, or a read error. The end of the stream is the end of the list of arrivals.
  datatype Frame = Message(decoded: Option<Request>) | Oversized | Broken

  // A frame, the environment while it is handled, and whether the peer still takes a response.
  datatype Arrival = Arrival(frame: Frame, m: Moments, delivers: bool)

  datatype End = Closed | ReadFailed | WriteFailed

  // The request an undecodable message is audited as.
  const BLANK := Request("", Unknown(""), Some(InvalidRequest), None, None)

  function RequestOf(f: Frame): Request {
    if f.Message? && f.decoded.Some? then f.decoded.value else BLANK
  }

  const TOO_LARGE := Response("", Failed(MessageTooLarge))

  /** The response that goes out: the given one, or a short failure when its encoding is over the limit. */
  function OnWire(fits: Response -> bool, r: Response): Response {
    if fits(r) then r else Response(r.id, Failed(MessageTooLarge))
  }

  method WriteResponse(fits: Response -> bool, r: Response, delivers: bool) returns (sent: seq<Response>, ok: bool)
    ensures ok <==> delivers && (fits(r) || fits(Response(r.id, Failed(MessageTooLarge))))
    ensures ok && fits(r) ==> sent == [r]
    ensures ok && !fits(r) ==> sent == [Response(r.id, Failed(MessageTooLarge))]
    ensures !ok ==> sent == []
  {
    if fits(r) {
      return if delivers then [r] else [], delivers;
    }
    var short := Response(r.id, Failed(MessageTooLarge));
    ok := delivers && fits(short);
    sent := if ok then [short] else [];
  }

  // The whole effect of a session.
  datatype Session = Session(cache: Cache, events: seq<Event>, sent: seq<Response>, end: End)

  ghost function Serving(w: World, cfg: Config, c: Cache, fits: Response -> bool, arrivals: seq<Arrival>): Session
    decreases |arrivals|
  {
    if arrivals == [] then Session(c, [], [], Closed)
    else
      var a := arrivals[0];
      match a.frame
      case Broken => Session(c, [], [], ReadFailed)
      case Oversized =>
        var ok := a.delivers && fits(OnWire(fits, TOO_LARGE));
        Session(c, [], if ok then [OnWire(fits, TOO_LARGE)] else [], if ok then Closed else WriteFailed)
      case Message(_) =>
        var h := Handle(w, cfg, c, RequestOf(a.frame), a.m);
        if a.delivers && fits(OnWire(fits, h.response)) then
          Onward(h.events, [OnWire(fits, h.response)], Serving(w, cfg, h.cache, fits, arrivals[1..]))
        else Session(h.cache, h.events, [], WriteFailed)
  }

  function Onward(events: seq<Event>, sent: seq<Response>, rest: Session): Session {
    rest.(events := events + rest.events, sent := sent + rest.sent)
  }

  lemma OnwardTwice(e1: seq<Event>, s1: seq<Response>, e2: seq<Event>, s2: seq<Response>, rest: Session)
    ensures Onward(e1, s1, Onward(e2, s2, rest)) == Onward(e1 + e2, s1 + s2, rest)
  {
    assert e1 + (e2 + rest.events) == (e1 + e2) + rest.events;
    assert s1 + (s2 + rest.sent) == (s1 + s2) + rest.sent;
  }

  lemma BlankIsRejected(w: World, cfg: Config, c: Cache, m: Moments)
    ensures Handle(w, cfg, c, BLANK, m) 
         == Handled(c, RejectEvents(cfg, BLANK, InvalidRequest, m), Response("", Failed(InvalidRequest)))
  {
  }

  /** The response to one message, decodable or not. */
  method Respond(a: AgentServer, decoded: Option<Request>, m: Moments) returns (r: Response)
    requires FilesOk(a.w.files)
    modifies a
    ensures
      var h := Handle(a.w, a.cfg, old(a.Cached()), RequestOf(Message(decoded)), m);
      a.Cached() == h.cache && a.events == old(a.events) + h.events && r == h.response
  {
    hide Handle;
    if decoded.None? {
      BlankIsRejected(a.w, a.cfg, a.Cached(), m);
      r := a.RejectRequest(BLANK, InvalidRequest, m);
    } else {
      r := a.HandleRequest(decoded.value, m);
    }
  }

  lemma ServingMessage(w: World, cfg: Config, c: Cache, fits: Response -> bool, arrivals: seq<Arrival>, i: nat)
    requires i < |arrivals| && arrivals[i].frame.Message?
    ensures
      var h := Handle(w, cfg, c, RequestOf(arrivals[i].frame), arrivals[i].m);
      var out := OnWire(fits, h.response);
      Serving(w, cfg, c, fits, arrivals[i..]) ==
        if arrivals[i].delivers && fits(out) then
          Onward(h.events, [out], Serving(w, cfg, h.cache, fits, arrivals[i + 1..]))
        else Session(h.cache, h.events, [], WriteFailed)
  {
    hide Handle;
    assert arrivals[i..][1..] == arrivals[i + 1..];
  }

  lemma ServingEnds(w: World, cfg: Config, c: Cache, fits: Response -> bool, arrivals: seq<Arrival>, i: nat)
    requires i <= |arrivals|
    ensures i == |arrivals| ==> Serving(w, cfg, c, fits, arrivals[i..]) == Session(c, [], [], Closed)
    ensures i < |arrivals| && arrivals[i].frame.Broken? ==>
              Serving(w, cfg, c, fits, arrivals[i..]) == Session(c, [], [], ReadFailed)
    ensures i < |arrivals| && arrivals[i].frame.Oversized? ==>
      var ok := arrivals[i].delivers && fits(OnWire(fits, TOO_LARGE));
      Serving(w, cfg, c, fits, arrivals[i..]) ==
        Session(c, [], if ok then [OnWire(fits, TOO_LARGE)] else [], if ok then Closed else WriteFailed)
  {
    hide Handle;
  }

  method Serve(a: AgentServer, fits: Response -> bool, arrivals: seq<Arrival>) returns (sent: seq<Response>, end: End)
    requires FilesOk(a.w.files)
    modifies a
    ensures
      var s := Serving(a.w, a.cfg, old(a.Cached()), fits, arrivals);
      a.Cached() == s.cache && a.events == old(a.events) + s.events && sent == s.sent && end == s.end
  {
    hide Handle, Serving;
    ghost var goal := Serving(a.w, a.cfg, a.Cached(), fits, arrivals);
    ghost var before := a.events;
    ghost var events: seq<Event> := [];
    sent := [];
    var i := 0;
    assert arrivals[0..] == arrivals;
    while i < |arrivals|
      invariant 0 <= i <= |arrivals|
      invariant a.events == before + events
      invariant goal == Onward(events, sent, Serving(a.w, a.cfg, a.Cached(), fits, arrivals[i..]))
    {
      var arrival := arrivals[i];
      var out, ok;
      ServingEnds(a.w, a.cfg, a.Cached(), fits, arrivals, i);
      match arrival.frame {
        case Broken =>
          return sent, ReadFailed;
        case Oversized =>
          out, ok := WriteResponse(fits, TOO_LARGE, arrival.delivers);
          sent := sent + out;
          return sent, if ok then Closed else WriteFailed;
        case Message(decoded) =>
          ghost var h := Handle(a.w, a.cfg, a.Cached(), RequestOf(arrival.frame), arrival.m);
          ServingMessage(a.w, a.cfg, a.Cached(), fits, arrivals, i);
          var r := Respond(a, decoded, arrival.m);
          assert (before + events) + h.events == before + (events + h.events);
          out, ok := WriteResponse(fits, r, arrival.delivers);
          if !ok {
            events := events + h.events;
            return sent, WriteFailed;
          }
          OnwardTwice(events, sent, h.events, out, Serving(a.w, a.cfg, h.cache, fits, arrivals[i + 1..]));
          sent, events, i := sent + out, events + h.events, i + 1;
      }
    }
    ServingEnds(a.w, a.cfg, a.Cached(), fits, arrivals, i);
    end := Closed;
  }

  // ---------------------------------------------------------------------
  // One response per message
  // ---------------------------------------------------------------------

  /** How many messages were handled by the agent: all before the one that ended the session. */
  ghost function Handlings(w: World, cfg: Config, c: Cache, fits: Response -> bool,
                           arrivals: seq<Arrival>): seq<Handled>
    decreases |arrivals|
  {
    if arrivals == [] || !arrivals[0].frame.Message? then []
    else
      var h := Handle(w, cfg, c, RequestOf(arrivals[0].frame), arrivals[0].m);
      if arrivals[0].delivers && fits(OnWire(fits, h.response))
      then [h] + Handlings(w, cfg, h.cache, fits, arrivals[1..])
      else [h]
  }

  /** Whether the first frame is handled and its response goes out. */
  ghost predicate GoesOn(w: World, cfg: Config, c: Cache, fits: Response -> bool, arrivals: seq<Arrival>) {
    && arrivals != [] && arrivals[0].frame.Message? && arrivals[0].delivers
    && fits(OnWire(fits, Handle(w, cfg, c, RequestOf(arrivals[0].frame), arrivals[0].m).response))
  }

  /** What goes out for a response: the response itself if it fits, else a short failure that does. */
  predicate SentFor(fits: Response -> bool, r: Response, sent: Response) {
    if fits(r) then sent == r
    else sent == Response(r.id, Failed(MessageTooLarge)) && fits(sent)
  }

  lemma ServingGoesOn(w: World, cfg: Config, c: Cache, fits: Response -> bool, arrivals: seq<Arrival>)
    requires GoesOn(w, cfg, c, fits, arrivals)
    ensures
      var h := Handle(w, cfg, c, RequestOf(arrivals[0].frame), arrivals[0].m);
      && h.response.id == RequestOf(arrivals[0].frame).id
      && (arrivals[0].frame.decoded.None? ==> h.response == Response("", Failed(InvalidRequest)))
      && Serving(w, cfg, c, fits, arrivals)
         == Onward(h.events, [OnWire(fits, h.response)], Serving(w, cfg, h.cache, fits, arrivals[1..]))
      && Handlings(w, cfg, c, fits, arrivals) == [h] + Handlings(w, cfg, h.cache, fits, arrivals[1..])
      && SentFor(fits, h.response, OnWire(fits, h.response))
  {
    ResponseKeepsId(w, cfg, c, RequestOf(arrivals[0].frame), arrivals[0].m);
    hide Handle;
  }

  /** Responses go out in the order of the messages, each with the request's ID (empty when it did not decode). */
  lemma {:induction false} ResponsesFollowMessages(w: World, cfg: Config, c: Cache, fits: Response -> bool,
                                                   arrivals: seq<Arrival>)
    ensures
      var s := Serving(w, cfg, c, fits, arrivals);
      var hs := Handlings(w, cfg, c, fits, arrivals);
      && |s.sent| <= |arrivals| && |hs| <= |arrivals|
      && (forall k :: 0 <= k < |hs| ==>
          && arrivals[k].frame.Message?
          && (arrivals[k].frame.decoded.Some? ==> hs[k].response.id == arrivals[k].frame.decoded.value.id)
          && (arrivals[k].frame.decoded.None? ==> hs[k].response == Response("", Failed(InvalidRequest))))
      && (forall k :: 0 <= k < |s.sent| && k < |hs| ==>
          arrivals[k].delivers && SentFor(fits, hs[k].response, s.sent[k]))
    decreases |arrivals|
  {
    hide Handle;
    if GoesOn(w, cfg, c, fits, arrivals) {
      var h := Handle(w, cfg, c, RequestOf(arrivals[0].frame), arrivals[0].m);
      ServingGoesOn(w, cfg, c, fits, arrivals);
      hide Serving, Handlings, SentFor, OnWire, GoesOn;
      ResponsesFollowMessages(w, cfg, h.cache, fits, arrivals[1..]);
      assert forall k :: 1 <= k < |arrivals| ==> arrivals[k] == arrivals[1..][k - 1];
    } else if arrivals != [] && arrivals[0].frame.Message? {
      ResponseKeepsId(w, cfg, c, RequestOf(arrivals[0].frame), arrivals[0].m);
    }
  }

  /** The end of a session tells which frame stopped it. */
  lemma {:induction false} EndTellsTheFrame(w: World, cfg: Config, c: Cache, fits: Response -> bool,
                                            arrivals: seq<Arrival>)
    ensures
      var s := Serving(w, cfg, c, fits, arrivals);
      var handled, n := |Handlings(w, cfg, c, fits, arrivals)|, |s.sent|;
      match s.end
      case ReadFailed => n == handled < |arrivals| && arrivals[n].frame.Broken?
      case WriteFailed =>
        && n < |arrivals| && !arrivals[n].frame.Broken?
        && (arrivals[n].delivers ==> !fits(Response(RequestOf(arrivals[n].frame).id, Failed(MessageTooLarge))))
        && handled == (if arrivals[n].frame.Message? then n + 1 else n)
        && (handled == n + 1 && arrivals[n].delivers ==>
              !fits(Handlings(w, cfg, c, fits, arrivals)[n].response))
      case Closed =>
        if handled == |arrivals| then n == |arrivals|
        else
          && handled < |arrivals| && arrivals[handled].frame.Oversized?
          && n == handled + 1 && s.sent[handled] == TOO_LARGE
    decreases |arrivals|
  {
    hide Handle;
    if GoesOn(w, cfg, c, fits, arrivals) {
      var h := Handle(w, cfg, c, RequestOf(arrivals[0].frame), arrivals[0].m);
      ServingGoesOn(w, cfg, c, fits, arrivals);
      hide Serving, Handlings;
      EndTellsTheFrame(w, cfg, h.cache, fits, arrivals[1..]);
    } else if arrivals != [] && arrivals[0].frame.Message? {
      ResponseKeepsId(w, cfg, c, RequestOf(arrivals[0].frame), arrivals[0].m);
    }
  }

  lemma ResponseKeepsId(w: World, cfg: Config, c: Cache, req: Request, m: Moments)
    ensures Handle(w, cfg, c, req, m).response.id == req.id
    ensures req == BLANK ==> Handle(w, cfg, c, req, m).response == Response("", Failed(InvalidRequest))
  {
  }

  // ---------------------------------------------------------------------
  // The audit trail and the commands of a session
  // ---------------------------------------------------------------------

  function Trail(hs: seq<Handled>): seq<Event> {
    if hs == [] then [] else hs[0].events + Trail(hs[1..])
  }

  /**
   * The trail of a session is, request by request, a sentence of the grammar that agrees with that request's
   * response, and the whole is one too.
   */
  lemma {:induction false} SessionTrail(w: World, cfg: Config, c: Cache, fits: Response -> bool, arrivals: seq<Arrival>)
    requires cfg.hasAuditor
    ensures
      var s := Serving(w, cfg, c, fits, arrivals);
      var hs := Handlings(w, cfg, c, fits, arrivals);
      && s.events == Trail(hs) && Scan(Idle, s.events) == Idle
      && forall k :: 0 <= k < |hs| ==>
           hs[k].events != [] && Scan(Idle, hs[k].events) == Idle
               && Tells(hs[k].events[|hs[k].events| - 1], hs[k].response)
    decreases |arrivals|
  {
    hide Handle;
    if arrivals != [] && arrivals[0].frame.Message? {
      var a := arrivals[0];
      var h := Handle(w, cfg, c, RequestOf(a.frame), a.m);
      OneRequestTrail(w, cfg, c, RequestOf(a.frame), a.m);
      if a.delivers && fits(OnWire(fits, h.response)) {
        SessionTrail(w, cfg, h.cache, fits, arrivals[1..]);
        ScanConcat(Idle, h.events, Serving(w, cfg, h.cache, fits, arrivals[1..]).events);
        assert ([h] + Handlings(w, cfg, h.cache, fits, arrivals[1..]))[1..]
            == Handlings(w, cfg, h.cache, fits, arrivals[1..]);
      } else {
        assert Trail([h]) == h.events + Trail([]);
      }
    }
  }

  /**
   * The peer is told what the audit log says of a request, except when the response did not fit: a response that went
   * out agrees with the request's last record iff it was sent as it was, or was a refusal for size itself.
   */
  lemma SentAgreesWithTrailIff(w: World, cfg: Config, c: Cache, fits: Response -> bool, arrivals: seq<Arrival>, k: nat)
    requires cfg.hasAuditor
    requires k < |Serving(w, cfg, c, fits, arrivals).sent| && k < |Handlings(w, cfg, c, fits, arrivals)|
    ensures
      var h := Handlings(w, cfg, c, fits, arrivals)[k];
      h.events != [] &&
      (Tells(h.events[|h.events| - 1], Serving(w, cfg, c, fits, arrivals).sent[k]) <==>
         fits(h.response) || h.response.outcome == Failed(MessageTooLarge))
  {
    hide Serving, Handlings, Scan, Handle, Trail, Tells;
    ResponsesFollowMessages(w, cfg, c, fits, arrivals);
    SessionTrail(w, cfg, c, fits, arrivals);
    var h, sent := Handlings(w, cfg, c, fits, arrivals)[k], Serving(w, cfg, c, fits, arrivals).sent[k];
    RecordTellsShortened(h.events[|h.events| - 1], h.response, sent, fits(h.response));
  }

  lemma RecordTellsShortened(last: Event, r: Response, sent: Response, whole: bool)
    requires Tells(last, r) && sent.id == r.id
    requires if whole then sent == r else sent.outcome == Failed(MessageTooLarge)
    ensures Tells(last, sent) <==> whole || r.outcome == Failed(MessageTooLarge)
  {
  }

  /** Over a whole session every diagnostic call is bracketed by its recorded start and its completion. */
  lemma SessionRunsAreBracketed(w: World, cfg: Config, c: Cache, fits: Response -> bool, arrivals: seq<Arrival>, k: nat)
    requires cfg.hasAuditor
    requires k < |Serving(w, cfg, c, fits, arrivals).events| && Serving(w, cfg, c, fits, arrivals).events[k].Ran?
    ensures
      var es := Serving(w, cfg, c, fits, arrivals).events;
      && 0 < k < |es| - 1 && es[k - 1].Audit? && es[k + 1].Audit?
      && es[k - 1].stage == Started && es[k - 1].recorded && es[k - 1].operation == es[k].op
      && es[k + 1].stage == Completed && es[k + 1].verdict != Rejected
      && es[k + 1].id == es[k - 1].id && es[k + 1].operation == es[k].op
  {
    SessionTrail(w, cfg, c, fits, arrivals);
    RunsAreBracketed(Serving(w, cfg, c, fits, arrivals).events, k);
  }

  /** Over a whole session every executed command has one of the three shapes and the policy it needs. */
  lemma {:induction false} SessionCommands(w: World, cfg: Config, c: Cache, fits: Response -> bool,
                                           arrivals: seq<Arrival>)
    ensures AllDisciplined(w, cfg, Serving(w, cfg, c, fits, arrivals).events)
    decreases |arrivals|
  {
    hide Handle;
    if arrivals != [] && arrivals[0].frame.Message? {
      var a := arrivals[0];
      var h := Handle(w, cfg, c, RequestOf(a.frame), a.m);
      OneRequestCommands(w, cfg, c, RequestOf(a.frame), a.m);
      if a.delivers && fits(OnWire(fits, h.response)) {
        SessionCommands(w, cfg, h.cache, fits, arrivals[1..]);
      }
    }
  }
}
