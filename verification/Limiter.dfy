// Connection slots under every interleaving of the accept loop and its handlers (internal/transport/tsnet/tsnet.go).
module Limiter {
  // The channel of a connectionLimiter: how many tokens it holds.
  class ConnectionLimiter {
    const capacity: nat
    var tokens: nat

    constructor (capacity: nat)
      requires capacity >= 1
      ensures this.capacity == capacity && tokens == 0
    {
      this.capacity, tokens := capacity, 0;
    }

    /** A send that does not wait. */
    method TryAcquire() returns (ok: bool)
      modifies this`tokens
      ensures ok <==> old(tokens) < capacity
      ensures tokens == if ok then old(tokens) + 1 else old(tokens)
    {
      ok := tokens < capacity;
      if ok {
        tokens := tokens + 1;
      }
    }

    /** A receive; with no token in the channel it would wait forever. */
    method Release()
      requires tokens > 0
      modifies this`tokens
      ensures tokens == old(tokens) - 1
    {
      tokens := tokens - 1;
    }
  }

  // A connection's handler: running, or returned with its deferred release still to come.
  datatype Phase = Running | Returned

  // The accept loop: waiting, holding an accepted connection, holding it with a token, or stopped.
  datatype Acceptor = Waiting | Accepted | Acquired | Stopped

  // handlers maps the unreleased handlers to their phases; spawned counts all handlers ever started.
  datatype State = State(tokens: nat, acceptor: Acceptor, handlers: map<nat, Phase>, spawned: nat)

  const START := State(0, Waiting, map[], 0)

  // Acquire is the accept loop's tryAcquire, whichever way it goes.
  datatype Action = Accept | Acquire | Spawn | Stop | Return(handler: nat) | Release(handler: nat)

  /** The program order of the loop and of each handler; nothing here looks at the tokens. */
  predicate Can(s: State, a: Action) {
    match a
    case Accept => s.acceptor == Waiting
    case Acquire => s.acceptor == Accepted
    case Spawn => s.acceptor == Acquired
    case Stop => s.acceptor == Waiting
    case Return(h) => h in s.handlers && s.handlers[h] == Running
    case Release(h) => h in s.handlers && s.handlers[h] == Returned
  }

  /** A full channel turns the connection away; a receive from an empty one would wait and change nothing. */
  function Next(capacity: nat, s: State, a: Action): State {
    match a
    case Accept => s.(acceptor := Accepted)
    case Acquire =>
      if s.tokens < capacity then s.(acceptor := Acquired, tokens := s.tokens + 1) else s.(acceptor := Waiting)
    case Spawn => s.(acceptor := Waiting, handlers := s.handlers[s.spawned := Running], spawned := s.spawned + 1)
    case Stop => s.(acceptor := Stopped)
    case Return(h) => s.(handlers := s.handlers[h := Returned])
    case Release(h) => if s.tokens > 0 then s.(handlers := s.handlers - {h}, tokens := s.tokens - 1) else s
  }

  ghost predicate Possible(capacity: nat, s: State, trace: seq<Action>)
    decreases trace
  {
    trace == [] || (Can(s, trace[0]) && Possible(capacity, Next(capacity, s, trace[0]), trace[1..]))
  }

  ghost function Reached(capacity: nat, s: State, trace: seq<Action>): State
    decreases trace
  {
    if trace == [] then s else Reached(capacity, Next(capacity, s, trace[0]), trace[1..])
  }

  // Every token belongs to one unreleased handler, or to the connection the loop is about to hand over.
  ghost predicate Balanced(capacity: nat, s: State) {
    && s.tokens == |s.handlers.Keys| + (if s.acceptor == Acquired then 1 else 0)
    && s.tokens <= capacity
    && forall h :: h in s.handlers ==> h < s.spawned
  }

  lemma UnreleasedHoldsToken(capacity: nat, s: State, h: nat)
    requires Balanced(capacity, s) && h in s.handlers
    ensures s.tokens > 0
  {
    assert h in s.handlers.Keys;
  }

  lemma StepKeepsBalance(capacity: nat, s: State, a: Action)
    requires Balanced(capacity, s) && Can(s, a)
    ensures Balanced(capacity, Next(capacity, s, a))
  {
    var t := Next(capacity, s, a);
    match a
    case Spawn =>
      assert t.handlers.Keys == s.handlers.Keys + {s.spawned};
    case Return(h) =>
      assert t.handlers.Keys == s.handlers.Keys;
    case Release(h) =>
      UnreleasedHoldsToken(capacity, s, h);
      assert t.handlers.Keys == s.handlers.Keys - {h};
    case _ =>
  }

  lemma {:induction false} TraceKeepsBalance(capacity: nat, s: State, trace: seq<Action>)
    requires Balanced(capacity, s) && Possible(capacity, s, trace)
    ensures Balanced(capacity, Reached(capacity, s, trace))
    decreases trace
  {
    if trace != [] {
      StepKeepsBalance(capacity, s, trace[0]);
      TraceKeepsBalance(capacity, Next(capacity, s, trace[0]), trace[1..]);
    }
  }

  /**
   * In every interleaving the tokens are the unreleased handlers, never more than the limit; a handler that has
   * returned finds a token to take back; a connection is turned away exactly when every slot is taken; and when the
   * last handler is released no token is left behind.
   */
  lemma SlotsAreExact(capacity: nat, trace: seq<Action>)
    requires Possible(capacity, START, trace)
    ensures
      var s := Reached(capacity, START, trace);
      && s.tokens == |s.handlers.Keys| + (if s.acceptor == Acquired then 1 else 0) <= capacity
      && (forall h :: h in s.handlers ==> s.tokens > 0)
      && (s.acceptor == Accepted ==>
            (Next(capacity, s, Acquire).acceptor == Waiting <==> |s.handlers.Keys| == capacity))
      && (s.handlers == map[] && s.acceptor != Acquired ==> s.tokens == 0)
  {
    TraceKeepsBalance(capacity, START, trace);
    var s := Reached(capacity, START, trace);
    forall h | h in s.handlers ensures s.tokens > 0 {
      UnreleasedHoldsToken(capacity, s, h);
    }
  }

  lemma OneStep(capacity: nat, s: State, trace: seq<Action>, i: nat)
    requires i < |trace| && Possible(capacity, s, trace[i..])
    ensures Can(s, trace[i])
    ensures Possible(capacity, Next(capacity, s, trace[i]), trace[i + 1..])
    ensures Reached(capacity, s, trace[i..]) == Reached(capacity, Next(capacity, s, trace[i]), trace[i + 1..])
  {
    assert trace[i..][0] == trace[i] && trace[i..][1..] == trace[i + 1..];
  }

  /** One action on the limiter object. */
  method Act(l: ConnectionLimiter, s: State, a: Action) returns (t: State)
    requires Balanced(l.capacity, s) && Can(s, a) && l.tokens == s.tokens
    modifies l
    ensures t == Next(l.capacity, s, a) && l.tokens == t.tokens && Balanced(l.capacity, t)
  {
    StepKeepsBalance(l.capacity, s, a);
    match a {
      case Acquire =>
        var ok := l.TryAcquire();
        t := s.(acceptor := if ok then Acquired else Waiting, tokens := l.tokens);
      case Release(h) =>
        UnreleasedHoldsToken(l.capacity, s, h);
        l.Release();
        t := s.(handlers := s.handlers - {h}, tokens := l.tokens);
      case other =>
        t := Next(l.capacity, s, other);
    }
  }

  /**
   * The limiter object, called in the order of any interleaving, answers and counts as the system does, and its
   * Release is never called on an empty channel.
   */
  method Interleave(l: ConnectionLimiter, trace: seq<Action>) returns (s: State)
    requires l.tokens == 0 && Possible(l.capacity, START, trace)
    modifies l
    ensures s == Reached(l.capacity, START, trace) && l.tokens == s.tokens
  {
    s := START;
    assert Balanced(l.capacity, s) && trace[0..] == trace;
    var i := 0;
    hide Balanced, Can, Next;
    while i < |trace|
      invariant 0 <= i <= |trace|
      invariant Balanced(l.capacity, s) && l.tokens == s.tokens
      invariant Possible(l.capacity, s, trace[i..])
      invariant Reached(l.capacity, s, trace[i..]) == Reached(l.capacity, START, trace)
    {
      OneStep(l.capacity, s, trace, i);
      hide Possible, Reached;
      s := Act(l, s, trace[i]);
      i := i + 1;
    }
    assert trace[i..] == [];
  }

  /** Whatever happened before, once the loop has stopped the handlers can all be drained, freeing every slot. */
  lemma {:induction false} EverySlotComesBack(capacity: nat, s: State) returns (drain: seq<Action>)
    requires Balanced(capacity, s) && s.acceptor == Stopped
    ensures
      var t := Reached(capacity, s, drain);
      Possible(capacity, s, drain) && t.tokens == 0 && t.handlers == map[]
    decreases |s.handlers.Keys|
  {
    if s.handlers == map[] {
      drain := [];
    } else {
      var h :| h in s.handlers;
      UnreleasedHoldsToken(capacity, s, h);
      assert h in s.handlers.Keys;
      var returned := if s.handlers[h] == Running then Next(capacity, s, Return(h)) else s;
      if s.handlers[h] == Running {
        StepKeepsBalance(capacity, s, Return(h));
        assert returned.handlers.Keys == s.handlers.Keys;
      }
      StepKeepsBalance(capacity, returned, Release(h));
      var released := Next(capacity, returned, Release(h));
      assert released.handlers.Keys == s.handlers.Keys - {h};
      var rest := EverySlotComesBack(capacity, released);
      drain := [Release(h)] + rest;
      assert drain[1..] == rest;
      assert Possible(capacity, returned, drain)
          && Reached(capacity, returned, drain) == Reached(capacity, released, rest);
      if s.handlers[h] == Running {
        var longer := [Return(h)] + drain;
        assert longer[1..] == drain;
        drain := longer;
      }
    }
  }
}
