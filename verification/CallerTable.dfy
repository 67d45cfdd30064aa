/**
 The request/reply correlation table of a bus Caller: a nonce-keyed map of waiters and
 the slice of nonces in the order in which they wait.

 `Queue` is the abstract view (one FIFO list of waiters); class `Caller` is the map, the
 slice and the counter, and each of its methods is proved to do to the abstract list
 exactly what the abstract operation says.
 */
module CallerTable {
  import opened Sequences
  import opened Wrappers

  /** Nonces are 64-bit unsigned and wrap around. */
  const NONCE_LIMIT: nat := 0x1_0000_0000_0000_0000

  /** A waiting call: the nonce it registered under, and whether it takes many replies. */
  datatype Waiter = Waiter(nonce: nat, stream: bool)

  type Queue = seq<Waiter>

  // ---------------------------------------------------------------- abstract list

  ghost predicate DistinctNonces(q: Queue) {
    forall i, j | 0 <= i < j < |q| :: q[i].nonce != q[j].nonce
  }

  /** The position of the waiter registered under nonce, or |q|. */
  function Position(q: Queue, nonce: nat): (p: nat)
    ensures p <= |q|
    ensures p < |q| ==> q[p].nonce == nonce
    ensures forall i | 0 <= i < p :: q[i].nonce != nonce
  {
    if q == [] then 0
    else if q[0].nonce == nonce then 0
    else 1 + Position(q[1..], nonce)
  }

  predicate Has(q: Queue, nonce: nat) {
    Position(q, nonce) < |q|
  }

  function Without(q: Queue, nonce: nat): Queue {
    var p := Position(q, nonce);
    if p < |q| then q[..p] + q[p + 1..] else q
  }

  /** The waiter handed the response, and the list that is left. */
  datatype Taken = Taken(rest: Queue, waiter: Option<Waiter>)

  /** The entry at position p is served: a stream goes to the back, a single call leaves. */
  function ServeAt(q: Queue, p: nat): Taken
    requires p < |q|
  {
    var others := q[..p] + q[p + 1..];
    Taken(if q[p].stream then others + [q[p]] else others, Some(q[p]))
  }

  function TakeByNonce(q: Queue, nonce: nat): Taken {
    if Has(q, nonce) then ServeAt(q, Position(q, nonce)) else Taken(q, None)
  }

  function TakeNext(q: Queue): Taken {
    if q == [] then Taken(q, None) else ServeAt(q, 0)
  }

  /** A response that carries the nonce of a pending waiter goes there, any other to the front. */
  predicate IsFifo(q: Queue, hint: Option<nat>) {
    hint.None? || !Has(q, hint.value)
  }

  function Dispatch(q: Queue, hint: Option<nat>): Taken {
    if IsFifo(q, hint) then TakeNext(q) else TakeByNonce(q, hint.value)
  }

  // ---------------------------------------------------------------- the table itself

  ghost predicate Registered(waiters: map<nat, Waiter>, order: seq<nat>) {
    forall i | 0 <= i < |order| :: order[i] in waiters && waiters[order[i]].nonce == order[i]
  }

  ghost predicate Agree(waiters: map<nat, Waiter>, order: seq<nat>) {
    && Distinct(order)
    && Registered(waiters, order)
    && forall n | n in waiters :: Contains(order, n)
  }

  ghost function Entries(waiters: map<nat, Waiter>, order: seq<nat>): (q: Queue)
    requires Registered(waiters, order)
    ensures |q| == |order|
    ensures forall i | 0 <= i < |q| :: q[i] == waiters[order[i]] && q[i].nonce == order[i]
  {
    seq(|order|, i requires 0 <= i < |order| => waiters[order[i]])
  }

  class Caller {
    var waiters: map<nat, Waiter>
    var order: seq<nat>
    var nonce: nat

    ghost predicate Valid()
      reads this
    {
      nonce < NONCE_LIMIT && Agree(waiters, order)
    }

    ghost function View(): Queue
      reads this
      requires Valid()
    {
      Entries(waiters, order)
    }

    constructor ()
      ensures Valid() && View() == [] && nonce == 1
    {
      waiters, order, nonce := map[], [], 1;
    }

    /** The table stays consistent exactly when the counter does not repeat a pending nonce. */
    method RegisterWaiter(stream: bool) returns (w: Waiter, n: nat)
      requires Valid()
      modifies this
      ensures n == old(nonce) && w == Waiter(n, stream)
      ensures nonce == (old(nonce) + 1) % NONCE_LIMIT
      ensures order == old(order) + [n] && waiters == old(waiters)[n := w]
      ensures Valid() <==> n !in old(waiters)
      ensures Valid() ==> View() == old(View()) + [w]
    {
      n := nonce;
      nonce := (nonce + 1) % NONCE_LIMIT;
      w := Waiter(n, stream);
      waiters := waiters[n := w];
      order := order + [n];
      RegistrationAgrees(old(waiters), old(order), w);
    }

    /** Shifts the order slice over the first occurrence of n. */
    method RemoveLocked(n: nat)
      modifies this`order
      ensures order == RemoveFirst(old(order), n)
    {
      var idx := 0;
      while idx < |order|
        invariant 0 <= idx <= |order|
        invariant order == old(order)
        invariant forall i | 0 <= i < idx :: order[i] != n
      {
        if order[idx] == n {
          order := order[..idx] + order[idx + 1..];
          return;
        }
        idx := idx + 1;
      }
    }

    method MoveToBackLocked(n: nat)
      modifies this`order
      ensures order == RemoveFirst(old(order), n) + [n]
    {
      RemoveLocked(n);
      order := order + [n];
    }

    method UnregisterWaiter(n: nat) returns (removed: Option<Waiter>)
      requires Valid()
      modifies this`waiters, this`order
      ensures Valid() && View() == Without(old(View()), n)
      ensures removed == if Has(old(View()), n) then Some(old(View())[Position(old(View()), n)]) else None
    {
      LookupAgrees(waiters, order, n);
      if n !in waiters {
        return None;
      }
      removed := Some(waiters[n]);
      RemovalAgrees(waiters, order, n);
      waiters := waiters - {n};
      RemoveLocked(n);
    }

    method TakeWaiterForNonce(n: nat) returns (w: Option<Waiter>)
      requires Valid()
      modifies this`waiters, this`order
      ensures Valid() && Taken(View(), w) == TakeByNonce(old(View()), n)
    {
      LookupAgrees(waiters, order, n);
      if n !in waiters {
        return None;
      }
      w := Some(waiters[n]);
      assert Has(View(), n) && View()[Position(View(), n)] == waiters[n];
      if waiters[n].stream {
        RotationAgrees(waiters, order, n);
        MoveToBackLocked(n);
        return;
      }
      RemovalAgrees(waiters, order, n);
      waiters := waiters - {n};
      RemoveLocked(n);
    }

    /**
     Drops nonces that are no longer pending until it meets one that is. When map and slice
     agree there is nothing to drop.
     */
    method TakeNextWaiter() returns (w: Option<Waiter>, ghost skipped: nat)
      modifies this`waiters, this`order
      ensures skipped <= |old(order)| && forall i | 0 <= i < skipped :: old(order)[i] !in old(waiters)
      ensures w.None? <==> skipped == |old(order)|
      ensures w.Some? ==> old(order)[skipped] in old(waiters) && w.value == old(waiters)[old(order)[skipped]]
      ensures old(Valid()) ==> skipped == 0 && Valid() && Taken(View(), w) == TakeNext(old(View()))
    {
      skipped := 0;
      while |order| > 0
        invariant skipped <= |old(order)| && order == old(order)[skipped..]
        invariant waiters == old(waiters)
        invariant forall i | 0 <= i < skipped :: old(order)[i] !in waiters
        invariant old(Valid()) ==> skipped == 0
      {
        var n := order[0];
        order := order[1..];
        if n !in waiters {
          skipped := skipped + 1;
          continue;
        }
        w := Some(waiters[n]);
        ServeFirst(waiters, old(order)[skipped..]);
        if waiters[n].stream {
          order := order + [n];
        } else {
          waiters := waiters - {n};
        }
        return;
      }
      return None, skipped;
    }

    /** One turn of the dispatch loop: nonce first, then whoever waits longest. */
    method HandleResponse(hint: Option<nat>) returns (w: Option<Waiter>)
      requires Valid()
      modifies this`waiters, this`order
      ensures Valid() && Taken(View(), w) == Dispatch(old(View()), hint)
    {
      if hint.Some? {
        w := TakeWaiterForNonce(hint.value);
        if w.Some? {
          return;
        }
      }
      ghost var skipped;
      w, skipped := TakeNextWaiter();
    }

    /** Close and failAll: every pending waiter is handed back to be closed, none stays. */
    method Clear() returns (closed: set<Waiter>)
      requires Valid()
      modifies this`waiters, this`order
      ensures Valid() && View() == [] && closed == set w | w in old(View())
    {
      closed := set n | n in waiters :: waiters[n];
      forall w ensures w in closed <==> w in View() {
        if w in View() {
          var i :| 0 <= i < |View()| && View()[i] == w;
          assert order[i] in waiters;
        }
        if w in closed {
          var n :| n in waiters && waiters[n] == w;
          assert View()[IndexOf(order, n)] == w;
        }
      }
      waiters := map[];
      order := [];
    }
  }

  lemma LookupAgrees(waiters: map<nat, Waiter>, order: seq<nat>, n: nat)
    requires Agree(waiters, order)
    ensures n in waiters <==> Has(Entries(waiters, order), n)
    ensures Position(Entries(waiters, order), n) == IndexOf(order, n)
    ensures n in waiters ==> Entries(waiters, order)[IndexOf(order, n)] == waiters[n]
  {
  }

  lemma ShiftedRegistered(waiters: map<nat, Waiter>, order: seq<nat>, n: nat)
    requires Distinct(order) && Registered(waiters, order)
    ensures Distinct(RemoveFirst(order, n)) && Registered(waiters, RemoveFirst(order, n))
    ensures Registered(waiters - {n}, RemoveFirst(order, n))
  {
  }

  lemma AppendAgrees(waiters: map<nat, Waiter>, order: seq<nat>, n: nat)
    requires Distinct(order) && Registered(waiters, order) && !Contains(order, n)
    requires n in waiters && waiters[n].nonce == n
    requires forall m | m in waiters && m != n :: Contains(order, m)
    ensures Agree(waiters, order + [n])
    ensures Entries(waiters, order + [n]) == Entries(waiters, order) + [waiters[n]]
  {
    forall m | m in waiters ensures Contains(order + [n], m) {
      AppendContains(order, n, m);
    }
  }

  lemma RegistrationAgrees(waiters: map<nat, Waiter>, order: seq<nat>, w: Waiter)
    requires Agree(waiters, order)
    ensures Agree(waiters[w.nonce := w], order + [w.nonce]) <==> w.nonce !in waiters
    ensures w.nonce !in waiters ==>
              Entries(waiters[w.nonce := w], order + [w.nonce]) == Entries(waiters, order) + [w]
  {
    if w.nonce in waiters {
      assert (order + [w.nonce])[IndexOf(order, w.nonce)] == (order + [w.nonce])[|order|];
    } else {
      assert !Contains(order, w.nonce);
      AppendAgrees(waiters[w.nonce := w], order, w.nonce);
    }
  }

  lemma PositionIsIndex(waiters: map<nat, Waiter>, order: seq<nat>, n: nat)
    requires Registered(waiters, order)
    ensures Position(Entries(waiters, order), n) == IndexOf(order, n)
  {
  }

  /** Deleting a nonce from the slice deletes its waiter from the list, in place. */
  lemma ShiftAgrees(waiters: map<nat, Waiter>, order: seq<nat>, n: nat)
    requires Registered(waiters, order) && Registered(waiters, RemoveFirst(order, n))
    ensures Entries(waiters, RemoveFirst(order, n)) == Without(Entries(waiters, order), n)
  {
    PositionIsIndex(waiters, order, n);
    var p, q := IndexOf(order, n), Entries(waiters, order);
    if p < |order| {
      assert Entries(waiters, order[..p] + order[p + 1..]) == q[..p] + q[p + 1..];
    }
  }

  lemma RemovalAgrees(waiters: map<nat, Waiter>, order: seq<nat>, n: nat)
    requires Agree(waiters, order)
    ensures Agree(waiters - {n}, RemoveFirst(order, n))
    ensures Entries(waiters - {n}, RemoveFirst(order, n)) == Without(Entries(waiters, order), n)
  {
    ShiftedRegistered(waiters, order, n);
    ShiftAgrees(waiters, order, n);
    assert Entries(waiters - {n}, RemoveFirst(order, n)) == Entries(waiters, RemoveFirst(order, n));
    forall m | m in waiters - {n} ensures Contains(RemoveFirst(order, n), m) {
      RemovedContains(order, n, m);
    }
  }

  lemma RotationAgrees(waiters: map<nat, Waiter>, order: seq<nat>, n: nat)
    requires Agree(waiters, order) && n in waiters
    ensures Agree(waiters, RemoveFirst(order, n) + [n])
    ensures Entries(waiters, RemoveFirst(order, n) + [n]) == Without(Entries(waiters, order), n) + [waiters[n]]
  {
    ShiftedRegistered(waiters, order, n);
    ShiftAgrees(waiters, order, n);
    RemovedContains(order, n, n);
    forall m | m in waiters && m != n ensures Contains(RemoveFirst(order, n), m) {
      RemovedContains(order, n, m);
    }
    assert waiters[n].nonce == n by { assert order[IndexOf(order, n)] == n; }
    AppendAgrees(waiters, RemoveFirst(order, n), n);
  }

  lemma FirstShifts(waiters: map<nat, Waiter>, order: seq<nat>)
    requires order != [] && Registered(waiters, order)
    ensures RemoveFirst(order, order[0]) == order[1..]
    ensures Without(Entries(waiters, order), order[0]) == Entries(waiters, order)[1..]
  {
  }

  /** The front of the list is served by dropping the slice's head. */
  lemma ServeFirst(waiters: map<nat, Waiter>, order: seq<nat>)
    requires order != [] && order[0] in waiters
    ensures Agree(waiters, order) ==>
              var n, q := order[0], Entries(waiters, order);
              if waiters[n].stream then
                Agree(waiters, order[1..] + [n]) && Taken(Entries(waiters, order[1..] + [n]), Some(q[0])) == ServeAt(q, 0)
              else
                Agree(waiters - {n}, order[1..]) && Taken(Entries(waiters - {n}, order[1..]), Some(q[0])) == ServeAt(q, 0)
  {
    if Agree(waiters, order) {
      FirstShifts(waiters, order);
      if waiters[order[0]].stream {
        RotationAgrees(waiters, order, order[0]);
      } else {
        RemovalAgrees(waiters, order, order[0]);
      }
      var q := Entries(waiters, order);
      assert q[..0] + q[1..] == q[1..];
    }
  }
}
