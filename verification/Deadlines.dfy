// Session deadlines (internal/transport/tsnet/tsnet.go): what a connection still does when its time is up.
module Deadlines {
  import opened Common

  type Time = int

  const DEFAULT_IDLE_TIMEOUT := 60
  const DEFAULT_SESSION_TIMEOUT := 300

  function OrDefault(timeout: int, default: int): int {
    if timeout <= 0 then default else timeout
  }

  // What a read of the connection yields when it is not cut off: bytes holding some complete messages, or the end.
  datatype Chunk = Data(messages: nat) | Ended

  /** A connection operation fails when its deadline passes before it completes, at once if it has passed already. */
  predicate InTime(deadline: Time, now: Time, done: Time) {
    now <= done < deadline
  }

  class SessionConn {
    const idleTimeout: int
    const sessionDeadline: Time
    var readDeadline: Time
    var writeDeadline: Time

    constructor (start: Time, idle: int, session: int)
      ensures idleTimeout == OrDefault(idle, DEFAULT_IDLE_TIMEOUT)
      ensures sessionDeadline == start + OrDefault(session, DEFAULT_SESSION_TIMEOUT)
      ensures (idle > 0 ==> idleTimeout == idle) && (idle <= 0 ==> idleTimeout == 60)
      ensures (session > 0 ==> sessionDeadline == start + session)
              && (session <= 0 ==> sessionDeadline == start + 300)
      ensures readDeadline == writeDeadline == NextDeadline(idleTimeout, sessionDeadline, start)
    {
      idleTimeout := OrDefault(idle, DEFAULT_IDLE_TIMEOUT);
      sessionDeadline := start + OrDefault(session, DEFAULT_SESSION_TIMEOUT);
      var first := NextDeadline(OrDefault(idle, DEFAULT_IDLE_TIMEOUT),
                                start + OrDefault(session, DEFAULT_SESSION_TIMEOUT), start);
      readDeadline, writeDeadline := first, first;
    }

    /** Read: extends the read deadline, capped by the session, and reads. */
    method Read(now: Time, done: Time, chunk: Chunk) returns (r: Option<Chunk>)
      modifies this`readDeadline
      ensures readDeadline == NextDeadline(idleTimeout, sessionDeadline, now)
      ensures r == if InTime(readDeadline, now, done) then Some(chunk) else None
      ensures r.Some? ==> done < sessionDeadline
    {
      readDeadline := NextDeadline(idleTimeout, sessionDeadline, now);
      r := if InTime(readDeadline, now, done) then Some(chunk) else None;
    }

    /** Write: extends the write deadline, not capped, and writes. */
    method Write(now: Time, done: Time) returns (ok: bool)
      modifies this`writeDeadline
      ensures writeDeadline == now + idleTimeout
      ensures ok <==> InTime(writeDeadline, now, done)
    {
      writeDeadline := WriteDeadline(idleTimeout, now);
      ok := InTime(writeDeadline, now, done);
    }
  }

  function NextDeadline(idle: int, session: Time, now: Time): Time {
    if now + idle > session then session else now + idle
  }

  function WriteDeadline(idle: int, now: Time): Time {
    now + idle
  }

  // ---------------------------------------------------------------------
  // The session over time
  // ---------------------------------------------------------------------

  // buffered counts the complete messages already read, intakes the times at which bytes came in, handled the
  // times at which a request was started. The context of the session expires at its deadline.
  datatype Session = Session(now: Time, buffered: nat, intakes: seq<Time>, handled: seq<Time>, open: bool)

  // Read completes at done with a chunk; Serve handles a buffered message until computed, then its response is
  // written until written.
  datatype Step = Read(done: Time, chunk: Chunk) | Serve(computed: Time, written: Time)

  /** agent.Serve reads only when no complete message is buffered. */
  predicate Can(s: Session, step: Step) {
    && s.open
    && match step
       case Read(done, _) => s.buffered == 0 && s.now <= done
       case Serve(computed, written) => s.buffered > 0 && s.now <= computed <= written
  }

  function Next(idle: int, session: Time, s: Session, step: Step): Session {
    match step
    case Read(done, chunk) =>
      if InTime(NextDeadline(idle, session, s.now), s.now, done) && chunk.Data?
      then s.(now := done, buffered := chunk.messages, intakes := s.intakes + [done])
      else s.(now := done, open := false)
    case Serve(computed, written) =>
      s.(now := written, buffered := s.buffered - (if s.buffered > 0 then 1 else 0), handled := s.handled + [s.now],
         open := InTime(WriteDeadline(idle, computed), computed, written))
  }

  ghost predicate Possible(idle: int, session: Time, s: Session, steps: seq<Step>)
    decreases steps
  {
    steps == [] || (Can(s, steps[0]) && Possible(idle, session, Next(idle, session, s, steps[0]), steps[1..]))
  }

  ghost function Reached(idle: int, session: Time, s: Session, steps: seq<Step>): Session
    decreases steps
  {
    if steps == [] then s else Reached(idle, session, Next(idle, session, s, steps[0]), steps[1..])
  }

  /** A connection driven through its Read and Write, step by step, is the session over time. */
  method Drive(conn: SessionConn, s: Session, steps: seq<Step>) returns (t: Session)
    requires Possible(conn.idleTimeout, conn.sessionDeadline, s, steps)
    modifies conn
    ensures t == Reached(conn.idleTimeout, conn.sessionDeadline, s, steps)
  {
    t := s;
    var i := 0;
    assert steps[0..] == steps;
    while i < |steps|
      invariant 0 <= i <= |steps|
      invariant Possible(conn.idleTimeout, conn.sessionDeadline, t, steps[i..])
      invariant Reached(conn.idleTimeout, conn.sessionDeadline, t, steps[i..])
             == Reached(conn.idleTimeout, conn.sessionDeadline, s, steps)
    {
      assert steps[i..][0] == steps[i] && steps[i..][1..] == steps[i + 1..];
      match steps[i] {
        case Read(done, chunk) =>
          var r := conn.Read(t.now, done, chunk);
          if r.Some? && r.value.Data? {
            t := t.(now := done, buffered := r.value.messages, intakes := t.intakes + [done]);
          } else {
            t := t.(now := done, open := false);
          }
        case Serve(computed, written) =>
          var started := t.now;
          var ok := conn.Write(computed, written);
          t := t.(now := written, buffered := t.buffered - 1, handled := t.handled + [started], open := ok);
      }
      i := i + 1;
    }
  }

  // ---------------------------------------------------------------------
  // What every run of a session does
  // ---------------------------------------------------------------------

  function EndOf(step: Step): Time {
    match step
    case Read(done, _) => done
    case Serve(_, written) => written
  }

  /** When step i begins: where the one before it ended. */
  function StartOf(s: Session, steps: seq<Step>, i: nat): Time
    requires i < |steps|
  {
    if i == 0 then s.now else EndOf(steps[i - 1])
  }

  /** The peer keeps up: bytes within the idle timeout and before the deadline, responses within the idle timeout. */
  predicate Prompt(idle: int, session: Time, start: Time, step: Step) {
    match step
    case Read(done, chunk) => chunk.Data? && done - start < idle && done < session
    case Serve(computed, written) => written - computed < idle
  }

  lemma StartsShift(idle: int, session: Time, s: Session, steps: seq<Step>, i: nat)
    requires 0 < i < |steps|
    ensures StartOf(s, steps, i) == StartOf(Next(idle, session, s, steps[0]), steps[1..], i - 1)
  {
  }

  /** Over every run, a session that makes progress is not cut off: it is open iff the peer kept up at every step. */
  lemma {:induction false} ProgressIsNotCutOff(idle: int, session: Time, s: Session, steps: seq<Step>)
    requires s.open && Possible(idle, session, s, steps)
    ensures Reached(idle, session, s, steps).open <==>
              forall i :: 0 <= i < |steps| ==> Prompt(idle, session, StartOf(s, steps, i), steps[i])
    ensures forall i :: 0 <= i < |steps| - 1 ==> Prompt(idle, session, StartOf(s, steps, i), steps[i])
    decreases steps
  {
    if steps != [] {
      var next, rest := Next(idle, session, s, steps[0]), steps[1..];
      assert next.open <==> Prompt(idle, session, s.now, steps[0]);
      forall i | 0 < i < |steps| ensures StartOf(s, steps, i) == StartOf(next, rest, i - 1) && steps[i] == rest[i - 1] {
        StartsShift(idle, session, s, steps, i);
      }
      if next.open {
        ProgressIsNotCutOff(idle, session, next, rest);
        assert forall i :: 0 <= i < |rest| ==>
            rest[i] == steps[i + 1] && StartOf(next, rest, i) == StartOf(s, steps, i + 1);
      } else {
        assert rest != [] ==> Can(next, rest[0]);
      }
    }
  }

  /** Every read that yields bytes ends before the session deadline. */
  ghost predicate Punctual(session: Time, s: Session) {
    && (forall t :: t in s.intakes ==> t < session && t <= s.now)
    && (forall t :: t in s.handled ==> t <= s.now)
  }

  /** How many messages the peer got in, as the steps tell. */
  function Received(idle: int, session: Time, start: Time, steps: seq<Step>): nat
    decreases steps
  {
    if steps == [] then 0
    else
      var first := if steps[0].Read? && Prompt(idle, session, start, steps[0]) then steps[0].chunk.messages else 0;
      first + Received(idle, session, EndOf(steps[0]), steps[1..])
  }

  /**
   * Over every run all bytes come in before the deadline, and each message received is handled once or still
   * buffered.
   */
  lemma {:induction false} SessionsArePunctual(idle: int, session: Time, s: Session, steps: seq<Step>)
    requires Punctual(session, s) && Possible(idle, session, s, steps)
    ensures
      var t := Reached(idle, session, s, steps);
      && Punctual(session, t)
      && |t.handled| + t.buffered == |s.handled| + s.buffered + Received(idle, session, s.now, steps)
    decreases steps
  {
    if steps != [] {
      SessionsArePunctual(idle, session, Next(idle, session, s, steps[0]), steps[1..]);
    }
  }

  /**
   * From any moment past the session deadline no run of the session takes in another byte; it handles at most the
   * messages already buffered, in order, every one of them under an expired context.
   */
  lemma {:induction false} OnlyBufferedRequestsAfterTheDeadline(idle: int, session: Time, s: Session, steps: seq<Step>)
    requires s.now >= session && Possible(idle, session, s, steps)
    ensures
      var t := Reached(idle, session, s, steps);
      && t.intakes == s.intakes
      && s.handled <= t.handled && |t.handled| - |s.handled| == s.buffered - t.buffered
      && (forall k :: |s.handled| <= k < |t.handled| ==> t.handled[k] >= session)
      && |steps| <= s.buffered + 1
    decreases steps
  {
    if steps != [] {
      var next := Next(idle, session, s, steps[0]);
      OnlyBufferedRequestsAfterTheDeadline(idle, session, next, steps[1..]);
    }
  }

  lemma {:induction false} TimePasses(idle: int, session: Time, s: Session, steps: seq<Step>, i: nat)
    requires Possible(idle, session, s, steps) && i < |steps|
    ensures StartOf(s, steps, i) >= s.now && EndOf(steps[i]) >= s.now
    ensures steps[i].Serve? ==> StartOf(s, steps, i) <= steps[i].computed <= steps[i].written
    decreases steps
  {
    if i > 0 {
      var next := Next(idle, session, s, steps[0]);
      StartsShift(idle, session, s, steps, i);
      TimePasses(idle, session, next, steps[1..], i - 1);
    }
  }

  /**
   * Past the deadline, whatever the run: all buffered requests get their responses out iff the peer takes each within
   * the idle timeout, although not one of them would be in time for a deadline capped like that of reads.
   */
  lemma LateResponsesAreDelivered(idle: int, session: Time, s: Session, steps: seq<Step>)
    requires s.open && s.now >= session && Possible(idle, session, s, steps)
    requires |steps| == s.buffered && forall i :: 0 <= i < |steps| ==> steps[i].Serve?
    ensures
      var t := Reached(idle, session, s, steps);
      && t.buffered == 0
      && (t.open <==> forall i :: 0 <= i < |steps| ==> steps[i].written - steps[i].computed < idle)
    ensures forall i :: 0 <= i < |steps| ==>
              !InTime(NextDeadline(idle, session, steps[i].computed), steps[i].computed, steps[i].written)
  {
    ProgressIsNotCutOff(idle, session, s, steps);
    EachServeTakesOne(idle, session, s, steps);
    forall i | 0 <= i < |steps|
      ensures !InTime(NextDeadline(idle, session, steps[i].computed), steps[i].computed, steps[i].written)
    {
      TimePasses(idle, session, s, steps, i);
    }
  }

  lemma {:induction false} EachServeTakesOne(idle: int, session: Time, s: Session, steps: seq<Step>)
    requires Possible(idle, session, s, steps) && forall i :: 0 <= i < |steps| ==> steps[i].Serve?
    ensures Reached(idle, session, s, steps).buffered == s.buffered - |steps|
    decreases steps
  {
    if steps != [] {
      EachServeTakesOne(idle, session, Next(idle, session, s, steps[0]), steps[1..]);
    }
  }
}
