/**
 The one-slot reply channels behind the correlation table. Taking a waiter and sending to its
 channel are two critical sections, and a caller may give up between them.
 */
module CallerChannels {
  import opened Wrappers
  import opened CallerTable
  import Runs = CallerRuns

  datatype Channel = Channel(full: bool, closed: bool)

  /** `inflight` is the waiter that the dispatch loop has taken and not yet sent to. */
  datatype System = System(
    table: Runs.State,
    channels: map<nat, Channel>,
    inflight: Option<Waiter>,
    gaveUp: set<nat>)

  datatype Event =
    | Start(stream: bool)
    | Take(hint: Option<nat>)
    | Deliver
    | Receive(nonce: nat)
    | GiveUp(nonce: nat)
    | Fail

  datatype Outcome = Sent | Blocks | SendOnClosed

  const INITIAL := System(Runs.INITIAL, map[], None, {})

  predicate Enabled(s: System, e: Event) {
    match e
    case Start(_) => s.table.nonce + 1 < NONCE_LIMIT
    case Take(_) => s.inflight.None?
    case Deliver => s.inflight.Some? && s.inflight.value.nonce in s.channels
    case Receive(n) => n in s.channels && s.channels[n].full
    case GiveUp(n) => n in s.channels
    case Fail => true
  }

  /** What the send of the response in flight does. */
  function Delivery(s: System): Outcome
    requires Enabled(s, Deliver)
  {
    var c := s.channels[s.inflight.value.nonce];
    if c.closed then SendOnClosed else if c.full then Blocks else Sent
  }

  function Close(channels: map<nat, Channel>, nonces: set<nat>): map<nat, Channel> {
    map n | n in channels :: if n in nonces then channels[n].(closed := true) else channels[n]
  }

  function Step(s: System, e: Event): System
    requires Enabled(s, e)
  {
    match e
    case Start(stream) =>
      s.(table := Runs.Step(s.table, Runs.Register(stream)),
         channels := s.channels[s.table.nonce := Channel(false, false)])
    case Take(hint) =>
      s.(table := Runs.Step(s.table, Runs.Response(hint)),
         inflight := Runs.Served(s.table, Runs.Response(hint)))
    case Deliver =>
      var w := s.inflight.value;
      if Delivery(s).Sent? then
        s.(channels := s.channels[w.nonce := Channel(true, !w.stream)], inflight := None)
      else s
    case Receive(n) => s.(channels := s.channels[n := s.channels[n].(full := false)])
    case GiveUp(n) =>
      s.(table := Runs.Step(s.table, Runs.Unregister(n)),
         channels := Close(s.channels, {n}), gaveUp := s.gaveUp + {n})
    case Fail =>
      s.(table := Runs.Step(s.table, Runs.Clear),
         channels := Close(s.channels, set w | w in s.table.queue :: w.nonce))
  }

  ghost predicate Enables(s: System, es: seq<Event>)
    decreases |es|
  {
    es == [] || (Enabled(s, es[0]) && Enables(Step(s, es[0]), es[1..]))
  }

  ghost function Run(s: System, es: seq<Event>): System
    requires Enables(s, es)
    decreases |es|
  {
    if es == [] then s else Run(Step(s, es[0]), es[1..])
  }

  ghost predicate Waits(s: System, w: Waiter) {
    && w.nonce in s.channels && !s.channels[w.nonce].closed && w.nonce !in s.gaveUp
    && (!w.stream ==> !s.channels[w.nonce].full)
  }

  ghost predicate Inv(s: System) {
    && Runs.Inv(s.table)
    && (forall n | n in s.channels :: n < s.table.nonce)
    && s.gaveUp <= s.channels.Keys
    && (forall i | 0 <= i < |s.table.queue| :: Waits(s, s.table.queue[i]))
    && (s.inflight.Some? ==> InFlight(s, s.inflight.value))
  }

  /**
   A stream in flight is still the same waiter in the table.
   A single call in flight has left the table, its slot is free, and only its caller closed it.
   */
  ghost predicate InFlight(s: System, w: Waiter) {
    && w.nonce in s.channels
    && (w.stream ==> forall i | 0 <= i < |s.table.queue| && s.table.queue[i].nonce == w.nonce :: s.table.queue[i].stream)
    && (!w.stream ==>
          && !Has(s.table.queue, w.nonce)
          && !s.channels[w.nonce].full
          && (s.channels[w.nonce].closed <==> w.nonce in s.gaveUp))
  }

  lemma StepKeepsInv(s: System, e: Event)
    requires Inv(s) && Enabled(s, e)
    ensures Inv(Step(s, e))
  {
    match e
    case Start(stream) => StartKeeps(s, stream);
    case Take(hint) => if s.table.queue != [] { TakeKeeps(s, hint); }
    case Deliver => DeliverKeeps(s);
    case Receive(n) =>
    case GiveUp(n) => GiveUpKeeps(s, n);
    case Fail => FailKeeps(s);
  }

  lemma StartKeeps(s: System, stream: bool)
    requires Inv(s) && Enabled(s, Start(stream))
    ensures Inv(Step(s, Start(stream)))
  {
  }

  lemma TakeKeeps(s: System, hint: Option<nat>)
    requires Inv(s) && Enabled(s, Take(hint)) && s.table.queue != []
    ensures Inv(Step(s, Take(hint)))
  {
    var q, s' := s.table.queue, Step(s, Take(hint));
    var p := if IsFifo(q, hint) then 0 else Position(q, hint.value);
    assert Waits(s, q[p]);
    Runs.StepKeepsInv(s.table, Runs.Response(hint));
    StillWait(s, s', p);
    if q[p].stream {
      assert s'.table.queue[|q| - 1] == q[p];
    } else {
      Runs.DeletePosition(q, p, q[p].nonce);
    }
  }

  lemma DeliverKeeps(s: System)
    requires Inv(s) && Enabled(s, Deliver)
    ensures Inv(Step(s, Deliver))
  {
  }

  lemma StillWait(s: System, s': System, p: nat)
    requires Inv(s) && p < |s.table.queue| && s'.channels == s.channels && s'.gaveUp == s.gaveUp
    requires s'.table.queue == ServeAt(s.table.queue, p).rest
    ensures forall i | 0 <= i < |s'.table.queue| :: Waits(s', s'.table.queue[i])
  {
  }

  lemma WithdrawKeepsWaits(s: System, n: nat)
    requires Inv(s) && n in s.channels
    ensures var s' := Step(s, GiveUp(n)); forall i | 0 <= i < |s'.table.queue| :: Waits(s', s'.table.queue[i])
  {
  }

  lemma WithdrawKeepsInFlight(s: System, n: nat)
    requires Inv(s) && n in s.channels && s.inflight.Some?
    ensures InFlight(Step(s, GiveUp(n)), s.inflight.value)
  {
  }

  lemma GiveUpKeeps(s: System, n: nat)
    requires Inv(s) && n in s.channels
    ensures Inv(Step(s, GiveUp(n)))
  {
    Runs.StepKeepsInv(s.table, Runs.Unregister(n));
    WithdrawKeepsWaits(s, n);
    if s.inflight.Some? { WithdrawKeepsInFlight(s, n); }
  }

  lemma FailKeeps(s: System)
    requires Inv(s)
    ensures Inv(Step(s, Fail))
  {
  }

  lemma {:induction false} RunKeepsInv(s: System, es: seq<Event>)
    requires Inv(s) && Enables(s, es)
    ensures Inv(Run(s, es))
    ensures forall n :: n in Run(s, es).gaveUp <==> n in s.gaveUp || GiveUp(n) in es
    decreases |es|
  {
    if es == [] {
    } else {
      StepKeepsInv(s, es[0]);
      RunKeepsInv(Step(s, es[0]), es[1..]);
      assert es == [es[0]] + es[1..];
    }
  }

  /**
   In every reachable state, sending a single call's reply never blocks, and it hits a closed
   channel exactly when that caller has given up.
   */
  lemma SingleDeliveryIff(es: seq<Event>)
    requires Enables(INITIAL, es)
    requires var s := Run(INITIAL, es); s.inflight.Some? && !s.inflight.value.stream
    ensures var s := Run(INITIAL, es);
            && Enabled(s, Deliver)
            && Delivery(s) == if GiveUp(s.inflight.value.nonce) in es then SendOnClosed else Sent
  {
    RunKeepsInv(INITIAL, es);
  }

  // ---------------------------------------------------------------- stream waiters

  /** Whoever waits or is in flight under the nonce is a stream, or is not. */
  ghost predicate IsKind(s: System, n: nat, stream: bool) {
    && n < s.table.nonce
    && (forall i | 0 <= i < |s.table.queue| && s.table.queue[i].nonce == n :: s.table.queue[i].stream == stream)
    && (s.inflight.Some? && s.inflight.value.nonce == n ==> s.inflight.value.stream == stream)
  }

  lemma StepKeepsKind(s: System, e: Event, n: nat, stream: bool)
    requires IsKind(s, n, stream) && Enabled(s, e)
    ensures IsKind(Step(s, e), n, stream)
  {
    match e
    case Take(hint) => if s.table.queue != [] { TakeKeepsKind(s, hint, n, stream); }
    case GiveUp(m) =>
      var q, q' := s.table.queue, Step(s, e).table.queue;
      var p := Position(q, m);
      assert forall i | 0 <= i < |q'| :: q'[i] == q[if i < p then i else i + 1];
    case _ =>
  }

  lemma TakeKeepsKind(s: System, hint: Option<nat>, n: nat, stream: bool)
    requires IsKind(s, n, stream) && Enabled(s, Take(hint)) && s.table.queue != []
    ensures IsKind(Step(s, Take(hint)), n, stream)
  {
    var q, q' := s.table.queue, Step(s, Take(hint)).table.queue;
    var p := if IsFifo(q, hint) then 0 else Position(q, hint.value);
    assert forall i | 0 <= i < |q'| :: q'[i] == q[if i < p then i else if i < |q| - 1 then i + 1 else p];
  }

  lemma {:induction false} RunKeepsKind(s: System, es: seq<Event>, n: nat, stream: bool)
    requires IsKind(s, n, stream) && Enables(s, es)
    ensures IsKind(Run(s, es), n, stream)
    decreases |es|
  {
    if es == [] {
    } else {
      StepKeepsKind(s, es[0], n, stream);
      RunKeepsKind(Step(s, es[0]), es[1..], n, stream);
    }
  }

  /** A failure closes the channels of those who wait in the table at that moment. */
  ghost predicate FailedWhileWaiting(s: System, es: seq<Event>, n: nat)
    requires Enables(s, es)
  {
    exists k :: 0 <= k < |es| && es[k].Fail? && Enables(s, es[..k]) && Has(Run(s, es[..k]).table.queue, n)
  }

  lemma FailedFirst(s: System, es: seq<Event>, n: nat)
    requires es != [] && Enables(s, es)
    ensures FailedWhileWaiting(s, es, n) <==>
              (es[0].Fail? && Has(s.table.queue, n)) || FailedWhileWaiting(Step(s, es[0]), es[1..], n)
  {
    var s', rest := Step(s, es[0]), es[1..];
    forall k | 0 < k <= |es|
      ensures Enables(s, es[..k]) <==> Enables(s', rest[..k - 1])
      ensures Enables(s, es[..k]) ==> Run(s, es[..k]) == Run(s', rest[..k - 1])
    {
      assert es[..k][1..] == rest[..k - 1];
    }
    if FailedWhileWaiting(s, es, n) {
      var k :| 0 <= k < |es| && es[k].Fail? && Enables(s, es[..k]) && Has(Run(s, es[..k]).table.queue, n);
      if k > 0 { assert rest[k - 1].Fail?; }
    }
    if FailedWhileWaiting(s', rest, n) {
      var k :| 0 <= k < |rest| && rest[k].Fail? && Enables(s', rest[..k]) && Has(Run(s', rest[..k]).table.queue, n);
      assert es[k + 1].Fail? && es[..k + 1][1..] == rest[..k];
    }
    if es[0].Fail? && Has(s.table.queue, n) {
      assert es[..0] == [];
    }
  }

  predicate IsClosed(s: System, n: nat) {
    n in s.channels && s.channels[n].closed
  }

  lemma StepCloses(s: System, e: Event, n: nat)
    requires Inv(s) && Enabled(s, e) && (n < s.table.nonce ==> IsKind(s, n, true))
    requires e == Start(false) ==> n != s.table.nonce
    ensures IsClosed(Step(s, e), n) <==> IsClosed(s, n) || e == GiveUp(n) || (e.Fail? && Has(s.table.queue, n))
  {
    if Has(s.table.queue, n) {
      assert Waits(s, s.table.queue[Position(s.table.queue, n)]);
    }
    if e.Fail? {
      forall w | w in s.table.queue ensures w.nonce == n ==> Has(s.table.queue, n) {
        var i :| 0 <= i < |s.table.queue| && s.table.queue[i] == w;
      }
    }
  }

  lemma {:induction false} StreamClosedIff(s: System, es: seq<Event>, n: nat)
    requires Inv(s) && Enables(s, es) && (n < s.table.nonce ==> IsKind(s, n, true))
    requires IsKind(Run(s, es), n, true) && !IsKind(Run(s, es), n, false)
    ensures IsClosed(Run(s, es), n) <==> IsClosed(s, n) || GiveUp(n) in es || FailedWhileWaiting(s, es, n)
    decreases |es|
  {
    if es == [] {
    } else {
      var e, rest := es[0], es[1..];
      StepKeepsInv(s, e);
      FailedFirst(s, es, n);
      assert es == [e] + rest;
      StartedAsKind(s, es, n);
      StepCloses(s, e, n);
      StreamClosedIff(Step(s, e), rest, n);
    }
  }

  lemma StartedAsKind(s: System, es: seq<Event>, n: nat)
    requires es != [] && Inv(s) && Enables(s, es) && (n < s.table.nonce ==> IsKind(s, n, true))
    requires !IsKind(Run(s, es), n, false) && n < Run(s, es).table.nonce
    ensures es[0] == Start(false) ==> n != s.table.nonce
    ensures n < Step(s, es[0]).table.nonce ==> IsKind(Step(s, es[0]), n, true)
  {
    var s' := Step(s, es[0]);
    if n < s.table.nonce {
      StepKeepsKind(s, es[0], n, true);
    } else if n < s'.table.nonce {
      assert es[0].Start? && n == s.table.nonce;
      assert IsKind(s', n, es[0].stream);
      RunKeepsKind(s', es[1..], n, es[0].stream);
    }
  }

  /**
   In every reachable state, a reply in flight to a stream hits a closed channel exactly when its
   reader has given up, or a failure found it waiting in the table.
   */
  lemma StreamDeliveryIff(es: seq<Event>)
    requires Enables(INITIAL, es)
    requires var s := Run(INITIAL, es); s.inflight.Some? && s.inflight.value.stream
    ensures var s := Run(INITIAL, es);
            var n := s.inflight.value.nonce;
            && Enabled(s, Deliver)
            && (Delivery(s) == SendOnClosed <==> GiveUp(n) in es || FailedWhileWaiting(INITIAL, es, n))
  {
    var s := Run(INITIAL, es);
    var n := s.inflight.value.nonce;
    RunKeepsInv(INITIAL, es);
    assert IsKind(s, n, true);
    StreamClosedIff(INITIAL, es, n);
  }

  // ---------------------------------------------------------------- full slots

  lemma {:induction false} RunSnoc(s: System, es: seq<Event>, e: Event)
    ensures Enables(s, es + [e]) <==> Enables(s, es) && Enabled(Run(s, es), e)
    ensures Enables(s, es + [e]) ==> Run(s, es + [e]) == Step(Run(s, es), e)
    decreases |es|
  {
    if es == [] {
      assert es + [e] == [e] && [e][1..] == [];
    } else {
      assert (es + [e])[1..] == es[1..] + [e];
      if Enabled(s, es[0]) { RunSnoc(Step(s, es[0]), es[1..], e); }
    }
  }

  lemma RunLast(es: seq<Event>)
    requires Enables(INITIAL, es) && es != []
    ensures var n := |es| - 1;
            && Enables(INITIAL, es[..n]) && Enabled(Run(INITIAL, es[..n]), es[n])
            && Run(INITIAL, es) == Step(Run(INITIAL, es[..n]), es[n])
  {
    assert es == es[..|es| - 1] + [es[|es| - 1]];
    RunSnoc(INITIAL, es[..|es| - 1], es[|es| - 1]);
  }

  predicate IsFull(s: System, n: nat) {
    n in s.channels && s.channels[n].full
  }

  /** The step puts a reply into the slot of call n. */
  predicate Puts(s: System, e: Event, n: nat) {
    e.Deliver? && Enabled(s, e) && s.inflight.value.nonce == n && Delivery(s).Sent?
  }

  lemma StepFills(s: System, e: Event, n: nat)
    requires Inv(s) && Enabled(s, e)
    ensures IsFull(Step(s, e), n) <==> Puts(s, e, n) || (IsFull(s, n) && e != Receive(n))
  {
  }

  /** Step k puts a reply into the slot, and nobody has read it since. */
  ghost predicate UnreadSince(es: seq<Event>, n: nat, k: nat)
    requires k < |es|
  {
    && Enables(INITIAL, es[..k]) && Puts(Run(INITIAL, es[..k]), es[k], n)
    && forall j | k < j < |es| :: es[j] != Receive(n)
  }

  ghost predicate Unread(es: seq<Event>, n: nat) {
    exists k :: 0 <= k < |es| && UnreadSince(es, n, k)
  }

  lemma UnreadNext(es: seq<Event>, n: nat)
    requires es != [] && Enables(INITIAL, es[..|es| - 1])
    ensures var last := |es| - 1;
            Unread(es, n) <==> Puts(Run(INITIAL, es[..last]), es[last], n) || (Unread(es[..last], n) && es[last] != Receive(n))
  {
    var last := |es| - 1;
    forall k | 0 <= k < last ensures UnreadSince(es, n, k) <==> UnreadSince(es[..last], n, k) && es[last] != Receive(n) {
      assert es[..last][..k] == es[..k];
    }
    assert UnreadSince(es, n, last) <==> Puts(Run(INITIAL, es[..last]), es[last], n);
  }

  /** In every run a slot is full exactly when some reply was put into it and has not been read since. */
  lemma {:induction false} FullIff(es: seq<Event>, n: nat)
    requires Enables(INITIAL, es)
    ensures IsFull(Run(INITIAL, es), n) <==> Unread(es, n)
  {
    if es == [] {
    } else {
      var last := |es| - 1;
      RunLast(es);
      FullIff(es[..last], n);
      RunKeepsInv(INITIAL, es[..last]);
      StepFills(Run(INITIAL, es[..last]), es[last], n);
      UnreadNext(es, n);
    }
  }

  /** So a reply to a stream that is still open waits exactly for the one before it to be read. */
  lemma StreamBlocksIff(es: seq<Event>)
    requires Enables(INITIAL, es)
    requires var s := Run(INITIAL, es); s.inflight.Some? && s.inflight.value.stream
    ensures var s := Run(INITIAL, es);
            var n := s.inflight.value.nonce;
            && Enabled(s, Deliver)
            && (Delivery(s) == Blocks <==> GiveUp(n) !in es && !FailedWhileWaiting(INITIAL, es, n) && Unread(es, n))
  {
    StreamDeliveryIff(es);
    FullIff(es, Run(INITIAL, es).inflight.value.nonce);
  }

  /** The interleaving that sends on a closed channel: the caller gives up between take and send. */
  lemma GiveUpBetweenTakeAndSend()
    ensures var es := [Start(false), Take(None), GiveUp(1)];
            Enables(INITIAL, es) && Enabled(Run(INITIAL, es), Deliver) && Delivery(Run(INITIAL, es)) == SendOnClosed
  {
  }

  /** For a stream also the end of the subscription will do. */
  lemma FailBetweenTakeAndSend()
    ensures var es := [Start(true), Take(None), Fail];
            Enables(INITIAL, es) && Enabled(Run(INITIAL, es), Deliver) && Delivery(Run(INITIAL, es)) == SendOnClosed
  {
    var s1 := Step(INITIAL, Start(true));
    var s2 := Step(s1, Take(None));
    assert s1.table.queue == [Waiter(1, true)];
    assert s2.table.queue == [Waiter(1, true)] && s2.inflight == Some(Waiter(1, true));
    assert s2.table.queue[0] in s2.table.queue;
    assert Step(s2, Fail).channels[1].closed;
    var es := [Start(true), Take(None), Fail];
    assert es[1..] == [Take(None), Fail] && es[1..][1..] == [Fail] && es[1..][1..][1..] == [];
    assert Run(s2, [Fail]) == Step(s2, Fail) && Enables(s2, [Fail]);
    assert Run(s1, es[1..]) == Step(s2, Fail) && Enables(s1, es[1..]);
  }
}
