/**
 Whole runs of the correlation table: registrations, cancellations, responses and clearing,
 interleaved in any order. Every critical section is one step.
 */
module CallerRuns {
  import opened Wrappers
  import opened CallerTable

  datatype State = State(queue: Queue, nonce: nat)

  datatype Event =
    | Register(stream: bool)
    | Unregister(nonce: nat)
    | Response(hint: Option<nat>)
    | Clear

  function Step(s: State, e: Event): State {
    match e
    case Register(stream) => State(s.queue + [Waiter(s.nonce, stream)], (s.nonce + 1) % NONCE_LIMIT)
    case Unregister(n) => s.(queue := Without(s.queue, n))
    case Response(hint) => s.(queue := Dispatch(s.queue, hint).rest)
    case Clear => s.(queue := [])
  }

  /** The waiter that a step hands a response to. */
  function Served(s: State, e: Event): Option<Waiter> {
    if e.Response? then Dispatch(s.queue, e.hint).waiter else None
  }

  function Run(s: State, es: seq<Event>): State
    decreases |es|
  {
    if es == [] then s else Run(Step(s, es[0]), es[1..])
  }

  const INITIAL := State([], 1)

  function Registrations(es: seq<Event>): nat {
    if es == [] then 0 else (if es[0].Register? then 1 else 0) + Registrations(es[1..])
  }

  /** Every pending nonce was issued before the counter, and no two waiters share one. */
  ghost predicate Inv(s: State) {
    && s.nonce < NONCE_LIMIT
    && DistinctNonces(s.queue)
    && forall i | 0 <= i < |s.queue| :: s.queue[i].nonce < s.nonce
  }

  /** The run does not take the counter past its last value. */
  ghost predicate NoWrap(s: State, es: seq<Event>) {
    s.nonce + Registrations(es) < NONCE_LIMIT
  }

  lemma StepKeepsInv(s: State, e: Event)
    requires Inv(s) && (e.Register? ==> s.nonce + 1 < NONCE_LIMIT)
    ensures Inv(Step(s, e))
  {
    match e
    case Register(_) =>
    case Clear =>
    case Unregister(n) => if Has(s.queue, n) { DropKeepsInv(s, Position(s.queue, n)); }
    case Response(hint) =>
      if s.queue != [] { ServeKeepsInv(s, if IsFifo(s.queue, hint) then 0 else Position(s.queue, hint.value)); }
  }

  lemma DropKeepsInv(s: State, p: nat)
    requires Inv(s) && p < |s.queue|
    ensures Inv(s.(queue := s.queue[..p] + s.queue[p + 1..]))
    ensures var rest := s.queue[..p] + s.queue[p + 1..];
            forall i | 0 <= i < |rest| :: rest[i].nonce != s.queue[p].nonce
  {
  }

  lemma ServeKeepsInv(s: State, p: nat)
    requires Inv(s) && p < |s.queue|
    ensures Inv(s.(queue := ServeAt(s.queue, p).rest))
  {
  }

  /** A registration keeps the nonces distinct exactly when the counter is not pending. */
  lemma RegisterDistinctIff(s: State, stream: bool)
    requires DistinctNonces(s.queue)
    ensures DistinctNonces(Step(s, Register(stream)).queue) <==> !Has(s.queue, s.nonce)
  {
    var q := Step(s, Register(stream)).queue;
    if Has(s.queue, s.nonce) {
      assert q[Position(s.queue, s.nonce)].nonce == q[|s.queue|].nonce;
    }
  }

  lemma {:induction false} RunKeepsInv(s: State, es: seq<Event>)
    requires Inv(s) && NoWrap(s, es)
    ensures Inv(Run(s, es)) && Run(s, es).nonce == s.nonce + Registrations(es)
    decreases |es|
  {
    if es == [] {
    } else {
      StepKeepsInv(s, es[0]);
      RunKeepsInv(Step(s, es[0]), es[1..]);
    }
  }

  // ---------------------------------------------------------------- bounded waiting

  /** Index of the first step that hands waiter n a response, or |es|. */
  function FirstServed(s: State, es: seq<Event>, n: nat): (k: nat)
    ensures k <= |es|
    decreases |es|
  {
    if es == [] then 0
    else if Served(s, es[0]).Some? && Served(s, es[0]).value.nonce == n then 0
    else 1 + FirstServed(Step(s, es[0]), es[1..], n)
  }

  function FifoDispatches(s: State, es: seq<Event>): nat
    decreases |es|
  {
    if es == [] then 0
    else (if es[0].Response? && IsFifo(s.queue, es[0].hint) then 1 else 0)
         + FifoDispatches(Step(s, es[0]), es[1..])
  }

  predicate Cancels(e: Event, n: nat) {
    e.Clear? || e == Unregister(n)
  }

  lemma AppendPosition(q: Queue, w: Waiter, n: nat)
    ensures Has(q, n) ==> Position(q + [w], n) == Position(q, n)
    ensures Has(q + [w], n) <==> Has(q, n) || n == w.nonce
  {
    var p := Position(q + [w], n);
    if Has(q, n) { assert (q + [w])[Position(q, n)].nonce == n; }
    assert (q + [w])[|q|] == w;
    assert forall i | 0 <= i < |q| :: (q + [w])[i] == q[i];
  }

  lemma DeletePosition(q: Queue, k: nat, n: nat)
    requires k < |q| && DistinctNonces(q)
    ensures var rest := q[..k] + q[k + 1..];
            && DistinctNonces(rest)
            && (Has(rest, n) <==> Has(q, n) && n != q[k].nonce)
            && (Has(rest, n) ==> Position(rest, n) == if k < Position(q, n) then Position(q, n) - 1 else Position(q, n))
  {
    var rest, p := q[..k] + q[k + 1..], Position(q, n);
    assert forall i | 0 <= i < |rest| :: rest[i] == q[if i < k then i else i + 1];
    if p < |q| && p != k {
      assert rest[if k < p then p - 1 else p].nonce == n;
    }
  }

  lemma ServePosition(q: Queue, k: nat, n: nat)
    requires k < |q| && DistinctNonces(q) && Has(q, n) && q[k].nonce != n
    ensures var rest := ServeAt(q, k).rest;
            && Has(rest, n)
            && Position(rest, n) == if k < Position(q, n) then Position(q, n) - 1 else Position(q, n)
  {
    DeletePosition(q, k, n);
    AppendPosition(q[..k] + q[k + 1..], q[k], n);
  }

  /** Nobody is overtaken: a step that does not serve or cancel n never moves it back. */
  lemma OvertakeAtMost(s: State, e: Event, n: nat)
    requires Inv(s) && Has(s.queue, n) && !Cancels(e, n)
    requires Served(s, e).Some? ==> Served(s, e).value.nonce != n
    ensures Has(Step(s, e).queue, n)
    ensures Position(Step(s, e).queue, n) <= Position(s.queue, n)
    ensures e.Response? && IsFifo(s.queue, e.hint) ==> Position(Step(s, e).queue, n) < Position(s.queue, n)
  {
    match e
    case Register(stream) => AppendPosition(s.queue, Waiter(s.nonce, stream), n);
    case Unregister(m) =>
      if Has(s.queue, m) { DeletePosition(s.queue, Position(s.queue, m), n); }
    case Response(hint) =>
      ServePosition(s.queue, if IsFifo(s.queue, hint) then 0 else Position(s.queue, hint.value), n);
  }

  lemma FifoFirst(s: State, es: seq<Event>, k: nat)
    requires 0 < k <= |es|
    ensures FifoDispatches(s, es[..k])
         == (if es[0].Response? && IsFifo(s.queue, es[0].hint) then 1 else 0)
            + FifoDispatches(Step(s, es[0]), es[1..][..k - 1])
  {
    assert es[..k][1..] == es[1..][..k - 1];
  }

  /**
   Before the waiter at index p is served, at most p responses are dispatched in FIFO order,
   whatever else happens; so the run serves it if it dispatches more than p.
   */
  lemma {:induction false} BoundedWaiting(s: State, es: seq<Event>, n: nat)
    requires Inv(s) && NoWrap(s, es) && Has(s.queue, n)
    requires forall e | e in es :: !Cancels(e, n)
    ensures FifoDispatches(s, es[..FirstServed(s, es, n)]) <= Position(s.queue, n)
    ensures FifoDispatches(s, es) > Position(s.queue, n) ==> FirstServed(s, es, n) < |es|
    decreases |es|
  {
    var k := FirstServed(s, es, n);
    if k > 0 {
      var e, rest := es[0], es[1..];
      OvertakeAtMost(s, e, n);
      StepKeepsInv(s, e);
      BoundedWaiting(Step(s, e), rest, n);
      FifoFirst(s, es, k);
    }
  }

  // ---------------------------------------------------------------- streams take turns

  predicate Serves(s: State, e: Event, n: nat) {
    Served(s, e).Some? && Served(s, e).value.nonce == n
  }

  /**
   Whoever a response is handed to, by nonce or first come: a stream is the last of the list
   afterwards, a single call has left it, and the others keep their order.
   */
  lemma StreamGoesLast(s: State, hint: Option<nat>)
    requires Inv(s) && Served(s, Response(hint)).Some?
    ensures var w, rest := Served(s, Response(hint)).value, Step(s, Response(hint)).queue;
            && (w.stream ==> rest != [] && rest[|rest| - 1] == w && rest[..|rest| - 1] == Without(s.queue, w.nonce))
            && (!w.stream ==> rest == Without(s.queue, w.nonce))
  {
    var w := Served(s, Response(hint)).value;
    assert Has(s.queue, w.nonce) && s.queue[Position(s.queue, w.nonce)] == w by {
      var i :| 0 <= i < |s.queue| && s.queue[i] == w;
      assert s.queue[i].nonce == w.nonce;
    }
  }

  /** n stands before m, if m is there at all. */
  predicate Before(q: Queue, n: nat, m: nat) {
    Has(q, n) && (Has(q, m) ==> Position(q, n) < Position(q, m))
  }

  lemma LastIsBehind(q: Queue, w: Waiter, n: nat)
    requires Has(q, n) && !Has(q, w.nonce)
    ensures Before(q + [w], n, w.nonce)
  {
    AppendPosition(q, w, n);
    AppendPosition(q, w, w.nonce);
    assert (q + [w])[|q|].nonce == w.nonce;
    assert forall i | 0 <= i < |q| :: (q + [w])[i].nonce != w.nonce;
  }

  /** The stream that was just served stands behind everybody else. */
  lemma ServedIsBehind(s: State, hint: Option<nat>, n: nat, m: nat)
    requires Inv(s) && Serves(s, Response(hint), m) && Has(s.queue, n) && n != m
    ensures Before(Step(s, Response(hint)).queue, n, m)
  {
    var k := if IsFifo(s.queue, hint) then 0 else Position(s.queue, hint.value);
    DeletePosition(s.queue, k, n);
    DeletePosition(s.queue, k, m);
    LastIsBehind(s.queue[..k] + s.queue[k + 1..], s.queue[k], n);
  }

  lemma DroppedStaysBefore(q: Queue, k: nat, n: nat, m: nat)
    requires k < |q| && DistinctNonces(q) && Before(q, n, m) && q[k].nonce != n
    ensures Before(q[..k] + q[k + 1..], n, m)
  {
    DeletePosition(q, k, n);
    DeletePosition(q, k, m);
  }

  lemma AppendedStaysBefore(q: Queue, w: Waiter, n: nat, m: nat)
    requires Before(q, n, m) && w.nonce != n
    ensures Before(q + [w], n, m)
  {
    AppendPosition(q, w, n);
    AppendPosition(q, w, m);
    if !Has(q, m) && w.nonce == m { LastIsBehind(q, w, n); }
  }

  lemma StepKeepsBefore(s: State, e: Event, n: nat, m: nat)
    requires Inv(s) && Before(s.queue, n, m) && !Cancels(e, n) && !Serves(s, e, n)
    ensures Before(Step(s, e).queue, n, m)
  {
    match e
    case Register(stream) => AppendedStaysBefore(s.queue, Waiter(s.nonce, stream), n, m);
    case Unregister(l) =>
      if Has(s.queue, l) { DroppedStaysBefore(s.queue, Position(s.queue, l), n, m); }
    case Response(hint) =>
      var k := if IsFifo(s.queue, hint) then 0 else Position(s.queue, hint.value);
      DroppedStaysBefore(s.queue, k, n, m);
      AppendedStaysBefore(s.queue[..k] + s.queue[k + 1..], s.queue[k], n, m);
  }

  /** Whoever stands before another stays there until it is served, withdrawn or cleared. */
  lemma {:induction false} StaysBefore(s: State, es: seq<Event>, n: nat, m: nat)
    requires Inv(s) && NoWrap(s, es) && Before(s.queue, n, m)
    requires FirstServed(s, es, n) == |es| && forall e | e in es :: !Cancels(e, n)
    ensures Before(Run(s, es).queue, n, m)
    decreases |es|
  {
    if es == [] {
    } else {
      StepKeepsBefore(s, es[0], n, m);
      StepKeepsInv(s, es[0]);
      StaysBefore(Step(s, es[0]), es[1..], n, m);
    }
  }

  /**
   Round robin: once a stream m has been served, whether by nonce or first come, everybody who waited
   then stands before it until served, withdrawn or cleared; so m is not served first come again
   before that.
   */
  lemma StreamsTakeTurns(s: State, hint: Option<nat>, es: seq<Event>, n: nat, m: nat)
    requires Inv(s) && NoWrap(s, es) && Serves(s, Response(hint), m) && Has(s.queue, n) && n != m
    requires FirstServed(Step(s, Response(hint)), es, n) == |es| && forall e | e in es :: !Cancels(e, n)
    ensures var end := Run(Step(s, Response(hint)), es);
            && Before(end.queue, n, m)
            && forall next | IsFifo(end.queue, next) :: !Serves(end, Response(next), m)
  {
    ServedIsBehind(s, hint, n, m);
    StepKeepsInv(s, Response(hint));
    StaysBefore(Step(s, Response(hint)), es, n, m);
  }

  // ---------------------------------------------------------------- conservation

  function Registered(s: State, es: seq<Event>): seq<Waiter>
    decreases |es|
  {
    if es == [] then []
    else (if es[0].Register? then [Waiter(s.nonce, es[0].stream)] else [])
         + Registered(Step(s, es[0]), es[1..])
  }

  /** One-shot waiters that a step answers, withdraws or clears. */
  function Answered(s: State, e: Event): multiset<Waiter> {
    match Served(s, e)
    case Some(w) => if w.stream then multiset{} else multiset{w}
    case None => multiset{}
  }

  function Withdrawn(s: State, e: Event): multiset<Waiter> {
    if e.Unregister? && Has(s.queue, e.nonce) then multiset{s.queue[Position(s.queue, e.nonce)]} else multiset{}
  }

  function Cleared(s: State, e: Event): multiset<Waiter> {
    if e.Clear? then multiset(s.queue) else multiset{}
  }

  function Total(s: State, es: seq<Event>, f: (State, Event) -> multiset<Waiter>): multiset<Waiter>
    decreases |es|
  {
    if es == [] then multiset{} else f(s, es[0]) + Total(Step(s, es[0]), es[1..], f)
  }

  lemma PickOut(q: Queue, p: nat)
    requires p < |q|
    ensures multiset(q) == multiset(q[..p] + q[p + 1..]) + multiset{q[p]}
  {
    assert q == q[..p] + [q[p]] + q[p + 1..];
  }

  lemma ServeConserves(q: Queue, p: nat)
    requires p < |q|
    ensures multiset(q) == multiset(ServeAt(q, p).rest) + if q[p].stream then multiset{} else multiset{q[p]}
  {
    PickOut(q, p);
  }

  lemma DispatchConserves(q: Queue, hint: Option<nat>)
    ensures var taken := Dispatch(q, hint);
            multiset(q) == multiset(taken.rest)
              + if taken.waiter.Some? && !taken.waiter.value.stream then multiset{taken.waiter.value} else multiset{}
  {
    if q != [] {
      ServeConserves(q, if IsFifo(q, hint) then 0 else Position(q, hint.value));
    }
  }

  lemma WithdrawConserves(q: Queue, n: nat)
    ensures multiset(q) == multiset(Without(q, n))
              + if Has(q, n) then multiset{q[Position(q, n)]} else multiset{}
  {
    if Has(q, n) { PickOut(q, Position(q, n)); }
  }

  lemma StepConserves(s: State, e: Event, w: Waiter)
    ensures multiset(s.queue)[w] + multiset(Registered(s, [e]))[w]
         == multiset(Step(s, e).queue)[w] + Answered(s, e)[w] + Withdrawn(s, e)[w] + Cleared(s, e)[w]
  {
    assert Registered(s, [e]) == if e.Register? then [Waiter(s.nonce, e.stream)] else [];
    match e
    case Register(_) =>
    case Clear =>
    case Unregister(n) => WithdrawConserves(s.queue, n);
    case Response(hint) => DispatchConserves(s.queue, hint);
  }

  lemma RegisteredFirst(s: State, es: seq<Event>)
    requires es != []
    ensures Registered(s, es) == Registered(s, [es[0]]) + Registered(Step(s, es[0]), es[1..])
  {
  }

  lemma {:induction false} WaiterConserved(s: State, es: seq<Event>, w: Waiter)
    ensures multiset(s.queue)[w] + multiset(Registered(s, es))[w]
         == multiset(Run(s, es).queue)[w] + Total(s, es, Answered)[w] + Total(s, es, Withdrawn)[w] + Total(s, es, Cleared)[w]
    decreases |es|
  {
    if es == [] {
    } else {
      var e, s', rest := es[0], Step(s, es[0]), es[1..];
      StepConserves(s, e, w);
      assert multiset(Registered(s, es))[w] == multiset(Registered(s, [e]))[w] + multiset(Registered(s', rest))[w] by {
        RegisteredFirst(s, es);
      }
      WaiterConserved(s', rest, w);
    }
  }

  /** Everyone who waited or registered still waits, or left in exactly one of three ways. */
  lemma WaitersConserved(s: State, es: seq<Event>)
    ensures multiset(s.queue) + multiset(Registered(s, es))
         == multiset(Run(s, es).queue) + Total(s, es, Answered) + Total(s, es, Withdrawn) + Total(s, es, Cleared)
  {
    forall w { WaiterConserved(s, es, w); }
  }

  lemma {:induction false} RegisteredAreNew(s: State, es: seq<Event>)
    requires NoWrap(s, es)
    ensures |Registered(s, es)| == Registrations(es)
    ensures forall i | 0 <= i < |Registered(s, es)| :: Registered(s, es)[i].nonce == s.nonce + i
    decreases |es|
  {
    if es == [] {
    } else {
      var r := Registered(Step(s, es[0]), es[1..]);
      RegisteredAreNew(Step(s, es[0]), es[1..]);
      if es[0].Register? {
        assert forall i | 0 < i < |Registered(s, es)| :: Registered(s, es)[i] == r[i - 1];
      }
    }
  }

  lemma DistinctOnce(q: Queue)
    requires DistinctNonces(q)
    ensures forall w :: multiset(q)[w] <= 1
  {
    if q != [] {
      DistinctOnce(q[1..]);
      assert q == [q[0]] + q[1..];
      assert q[0] !in q[1..];
    }
  }

  /** In a run from a fresh Caller each waiter is answered, withdrawn, cleared or still waiting, once. */
  lemma LeavesExactlyOnce(es: seq<Event>, w: Waiter)
    requires NoWrap(INITIAL, es) && w in Registered(INITIAL, es)
    ensures multiset(Run(INITIAL, es).queue)[w] + Total(INITIAL, es, Answered)[w]
          + Total(INITIAL, es, Withdrawn)[w] + Total(INITIAL, es, Cleared)[w] == 1
  {
    var m := multiset(Registered(INITIAL, es));
    assert m[w] == 1 by {
      RegisteredAreNew(INITIAL, es);
      DistinctOnce(Registered(INITIAL, es));
    }
    assert multiset(INITIAL.queue) + m == m;
    WaitersConserved(INITIAL, es);
  }

  /** A response is dropped exactly when nobody waits; otherwise it goes to one pending waiter. */
  lemma ResponseGoesToOneOrNone(s: State, hint: Option<nat>)
    requires Inv(s)
    ensures Served(s, Response(hint)).None? <==> s.queue == []
    ensures s.queue != [] ==>
              var w := Served(s, Response(hint)).value;
              && w in s.queue
              && (hint.Some? && Has(s.queue, hint.value) ==> w.nonce == hint.value)
              && (hint.None? || !Has(s.queue, hint.value) ==> w == s.queue[0])
              && (w.stream <==> w in Step(s, Response(hint)).queue)
  {
  }

  // ---------------------------------------------------------------- correlation

  function Nonces(q: Queue): (ns: seq<nat>)
    ensures |ns| == |q| && forall i | 0 <= i < |q| :: ns[i] == q[i].nonce
  {
    seq(|q|, i requires 0 <= i < |q| => q[i].nonce)
  }

  /** Nonces of the waiters that get a response, in the order in which they get it. */
  function Replies(s: State, es: seq<Event>): seq<nat>
    decreases |es|
  {
    if es == [] then []
    else (if Served(s, es[0]).Some? then [Served(s, es[0]).value.nonce] else [])
         + Replies(Step(s, es[0]), es[1..])
  }

  predicate PlainCalls(es: seq<Event>) {
    forall i | 0 <= i < |es| :: es[i] == Register(false) || es[i] == Response(None)
  }

  ghost predicate OneShot(q: Queue) {
    forall w | w in q :: !w.stream
  }

  lemma NoncesAppend(a: Queue, b: Queue)
    ensures Nonces(a + b) == Nonces(a) + Nonces(b)
  {
  }

  lemma PlainStep(s: State, e: Event)
    requires PlainCalls([e]) && OneShot(s.queue)
    ensures OneShot(Step(s, e).queue)
    ensures Replies(s, [e]) + Nonces(Step(s, e).queue) == Nonces(s.queue) + Nonces(Registered(s, [e]))
  {
  }

  /** Without nonces, single calls are answered in the order in which they registered. */
  lemma {:induction false} AnsweredInOrder(s: State, es: seq<Event>)
    requires PlainCalls(es) && OneShot(s.queue)
    ensures Replies(s, es) + Nonces(Run(s, es).queue) == Nonces(s.queue) + Nonces(Registered(s, es))
    ensures OneShot(Run(s, es).queue)
    decreases |es|
  {
    if es == [] {
    } else {
      var e, rest := es[0], es[1..];
      var s', end := Step(s, e), Run(s, es);
      assert PlainCalls([e]) && PlainCalls(rest);
      PlainStep(s, e);
      AnsweredInOrder(s', rest);
      RegisteredFirst(s, es);
      NoncesAppend(Registered(s, [e]), Registered(s', rest));
      RepliesFirst(s, es);
      Splice(Replies(s, [e]), Replies(s', rest), Nonces(end.queue), Nonces(s'.queue), Nonces(Registered(s', rest)),
             Nonces(s.queue), Nonces(Registered(s, [e])));
    }
  }

  lemma RepliesFirst(s: State, es: seq<Event>)
    requires es != []
    ensures Replies(s, es) == Replies(s, [es[0]]) + Replies(Step(s, es[0]), es[1..])
  {
  }

  lemma Splice(one: seq<nat>, more: seq<nat>, end: seq<nat>, mid: seq<nat>, later: seq<nat>, start: seq<nat>, first: seq<nat>)
    requires more + end == mid + later && one + mid == start + first
    ensures (one + more) + end == start + (first + later)
  {
    assert (one + more) + end == one + (more + end) == (one + mid) + later == start + (first + later);
  }

  /** From a fresh Caller, the k-th delivered response goes to the k-th registration. */
  lemma KthReplyToKthCall(es: seq<Event>, k: nat)
    requires PlainCalls(es) && NoWrap(INITIAL, es) && k < |Replies(INITIAL, es)|
    ensures k < Registrations(es) && Replies(INITIAL, es)[k] == 1 + k
  {
    AnsweredInOrder(INITIAL, es);
    RegisteredAreNew(INITIAL, es);
    assert Nonces([]) + Nonces(Registered(INITIAL, es)) == Nonces(Registered(INITIAL, es));
    assert (Replies(INITIAL, es) + Nonces(Run(INITIAL, es).queue))[k] == Replies(INITIAL, es)[k];
  }

  /** The nonces that the responses of a run carry. */
  function Hints(es: seq<Event>): seq<nat> {
    if es == [] then []
    else (if es[0].Response? && es[0].hint.Some? then [es[0].hint.value] else []) + Hints(es[1..])
  }

  /**
   Calls and replies in any interleaving: nobody cancels, every reply carries the nonce of a
   call made earlier (or pending at the start), and no call is answered twice.
   */
  ghost predicate Correlated(s: State, es: seq<Event>, answered: set<nat>)
    decreases |es|
  {
    es == [] ||
    match es[0]
    case Register(stream) => !stream && Correlated(Step(s, es[0]), es[1..], answered)
    case Response(Some(n)) =>
      0 < n < s.nonce && n !in answered && Correlated(Step(s, es[0]), es[1..], answered + {n})
    case _ => false
  }

  /** The calls that wait are exactly those made and not yet answered. */
  ghost predicate Pending(s: State, answered: set<nat>) {
    && (forall n | n in answered :: n < s.nonce)
    && forall n: nat :: Has(s.queue, n) <==> 0 < n < s.nonce && n !in answered
  }

  /** Whatever the order of the replies, each call is handed its own. */
  lemma {:induction false} RepliesMatchCalls(s: State, es: seq<Event>, answered: set<nat>)
    requires Inv(s) && NoWrap(s, es) && 0 < s.nonce && OneShot(s.queue) && Pending(s, answered) && Correlated(s, es, answered)
    ensures Replies(s, es) == Hints(es)
    ensures forall n: nat :: Has(Run(s, es).queue, n) <==>
              0 < n < Run(s, es).nonce && n !in answered && n !in Hints(es)
    decreases |es|
  {
    if es == [] {
    } else {
      var e, rest := es[0], es[1..];
      StepKeepsInv(s, e);
      if e.Register? {
        RegisterPends(s, answered);
        RepliesMatchCalls(Step(s, e), rest, answered);
        assert Hints(es) == Hints(rest);
      } else {
        ReplySettles(s, e.hint.value, answered);
        RepliesMatchCalls(Step(s, e), rest, answered + {e.hint.value});
        assert Hints(es) == [e.hint.value] + Hints(rest);
      }
    }
  }

  lemma RegisterPends(s: State, answered: set<nat>)
    requires Inv(s) && s.nonce + 1 < NONCE_LIMIT && OneShot(s.queue) && Pending(s, answered) && 0 < s.nonce
    ensures OneShot(Step(s, Register(false)).queue) && Pending(Step(s, Register(false)), answered)
  {
    forall n: nat ensures Has(s.queue + [Waiter(s.nonce, false)], n) <==> Has(s.queue, n) || n == s.nonce {
      AppendPosition(s.queue, Waiter(s.nonce, false), n);
    }
  }

  lemma ReplySettles(s: State, n: nat, answered: set<nat>)
    requires Inv(s) && OneShot(s.queue) && Pending(s, answered) && 0 < n < s.nonce && n !in answered
    ensures Served(s, Response(Some(n))) == Some(Waiter(n, false))
    ensures var s' := Step(s, Response(Some(n)));
            OneShot(s'.queue) && Pending(s', answered + {n})
  {
    assert Has(s.queue, n);
    var p := Position(s.queue, n);
    assert s.queue[p] in s.queue;
    assert Step(s, Response(Some(n))).queue == s.queue[..p] + s.queue[p + 1..];
    var rest := s.queue[..p] + s.queue[p + 1..];
    forall m: nat ensures Has(rest, m) <==> 0 < m < s.nonce && m !in answered + {n} {
      DeletePosition(s.queue, p, m);
    }
  }

  // ---------------------------------------------------------------- the dispatch loop

  /** The list left after a batch of responses. */
  function LeftBy(q: Queue, hints: seq<Option<nat>>): Queue {
    if hints == [] then q else Dispatch(LeftBy(q, hints[..|hints| - 1]), hints[|hints| - 1]).rest
  }

  /** Who is served by each response of a batch. */
  function ServedBy(q: Queue, hints: seq<Option<nat>>): (served: seq<Option<Waiter>>)
    ensures |served| == |hints|
  {
    if hints == [] then []
    else
      var before := hints[..|hints| - 1];
      ServedBy(q, before) + [Dispatch(LeftBy(q, before), hints[|hints| - 1]).waiter]
  }

  lemma BatchNext(q: Queue, hints: seq<Option<nat>>, i: nat, taken: Taken)
    requires i < |hints| && taken == Dispatch(LeftBy(q, hints[..i]), hints[i])
    ensures LeftBy(q, hints[..i + 1]) == taken.rest
    ensures ServedBy(q, hints[..i + 1]) == ServedBy(q, hints[..i]) + [taken.waiter]
  {
    assert hints[..i + 1][..i] == hints[..i];
  }

  /**
   The receive loop: dispatches every response until the consumer fails, then hands back
   whoever still waits.
   */
  method HandleResponses(c: Caller, hints: seq<Option<nat>>) returns (served: seq<Option<Waiter>>, closed: set<Waiter>)
    requires c.Valid()
    modifies c
    ensures c.Valid() && c.View() == [] && c.nonce == old(c.nonce)
    ensures served == ServedBy(old(c.View()), hints)
    ensures closed == set w | w in LeftBy(old(c.View()), hints)
  {
    ghost var start := c.View();
    served := [];
    var i := 0;
    while i < |hints|
      invariant 0 <= i <= |hints|
      invariant c.Valid() && c.nonce == old(c.nonce)
      invariant c.View() == LeftBy(start, hints[..i])
      invariant served == ServedBy(start, hints[..i])
    {
      var w := c.HandleResponse(hints[i]);
      BatchNext(start, hints, i, Taken(c.View(), w));
      served := served + [w];
      i := i + 1;
    }
    assert hints[..i] == hints;
    closed := c.Clear();
  }
}
