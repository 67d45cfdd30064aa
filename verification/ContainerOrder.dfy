/**
 The same calls on a container in another order: when every order leaves the routers with the same
 working members.
 */
module ContainerOrder {
  import opened Sequences
  import opened Container

  ghost predicate SameEvents(es: seq<Event>, es': seq<Event>) {
    forall e :: e in es <==> e in es'
  }

  predicate Reordered(es: seq<Event>, es': seq<Event>) {
    multiset(es) == multiset(es')
  }

  lemma ReorderedIsSame(es: seq<Event>, es': seq<Event>)
    requires Reordered(es, es')
    ensures SameEvents(es, es')
  {
    forall e ensures e in es <==> e in es' {
      assert e in es <==> e in multiset(es);
    }
  }

  /** The router is there in both and has the same working members. */
  ghost predicate SameWiring(s: State, s': State, key: Key) {
    && (key in s.routers <==> key in s'.routers)
    && forall ep :: Live(s, key, ep) <==> Live(s', key, ep)
  }

  ghost predicate OrderIndependent(es: seq<Event>, key: Key) {
    forall es' | Reordered(es, es') :: SameWiring(Run(es), Run(es'), key)
  }

  /** Every route of the key allows the endpoint, which never refuses it on joining. */
  ghost predicate AlwaysTaken(es: seq<Event>, key: Key, ep: Endpoint) {
    && (forall i | 0 <= i < |es| && Opens(es[i], key) :: Allowed(key.kind, ep, es[i].route))
    && (forall i | 0 <= i < |es| && Brings(es[i], ep) :: key !in es[i].refuses)
  }

  /** A route of the key that allows the endpoint is refused by it whichever comes first. */
  ghost predicate NeverTaken(es: seq<Event>, key: Key, ep: Endpoint) {
    forall i | 0 <= i < |es| && Opens(es[i], key) && Allowed(key.kind, ep, es[i].route) ::
      && ep in es[i].refusing
      && forall j | 0 <= j < |es| && Brings(es[j], ep) :: key in es[j].refuses
  }

  /** A call for the key that no endpoint of the run refuses. */
  predicate Undisputed(es: seq<Event>, key: Key, i: nat)
    requires i < |es|
  {
    && Opens(es[i], key)
    && forall j | 0 <= j < |es| && es[j].AddEndpoint? && es[j].initialises && Allowed(key.kind, es[j].ep, es[i].route) ::
         es[j].ep !in es[i].refusing
  }

  /** The endpoint refuses every call for the key that some endpoint refuses, so none fails after asking it. */
  ghost predicate Spared(es: seq<Event>, key: Key, ep: Endpoint) {
    forall i | 0 <= i < |es| && Opens(es[i], key) && !Undisputed(es, key, i) :: ep in es[i].refusing
  }

  ghost predicate Decided(es: seq<Event>, key: Key) {
    && (exists i :: 0 <= i < |es| && Undisputed(es, key, i))
    && forall ep | Present(es, ep) :: (AlwaysTaken(es, key, ep) && Spared(es, key, ep)) || NeverTaken(es, key, ep)
  }

  lemma TakenHolds(es: seq<Event>, key: Key, ep: Endpoint)
    requires AlwaysTaken(es, key, ep)
    ensures key in Run(es).routers && Contains(Run(es).endpoints, ep) ==> Holds(Run(es), key, ep)
  {
    if key in Run(es).routers && Contains(Run(es).endpoints, ep) {
      EndpointsOfRun(es, ep);
      RunWires(es, key, ep);
      RouterIsMade(es, key);
    }
  }

  lemma NeverMade(s: State, e: Event, key: Key, ep: Endpoint)
    requires key !in s.routers && Opens(e, key) && (Allowed(key.kind, ep, e.route) ==> ep in e.refusing)
    ensures !Holds(Step(s, e), key, ep)
  {
    if key in Step(s, e).routers {
      assert s.endpoints[..|s.endpoints|] == s.endpoints;
      FilterIsAllowed(s.endpoints, e.kind, e.route, ep);
      if Contains(s.endpoints, ep) {
        assert !Disputes(s.endpoints[IndexOf(s.endpoints, ep)], e.kind, e.route, e.refusing);
      }
    }
  }

  lemma NeverJoined(s: State, e: Event, key: Key, ep: Endpoint)
    requires e.AddEndpoint? && key in s.routers && !Holds(s, key, ep)
    requires Brings(e, ep) && Allowed(key.kind, ep, s.routers[key].route) ==> key in e.refuses
    ensures !Holds(Step(s, e), key, ep)
  {
    AppendContains(s.routers[key].members, e.ep, ep);
  }

  lemma {:induction false} NeverHolds(es: seq<Event>, key: Key, ep: Endpoint)
    requires NeverTaken(es, key, ep)
    ensures !Holds(Run(es), key, ep)
  {
    if es == [] {
    } else {
      var n := |es| - 1;
      var s, e := Run(es[..n]), es[n];
      NeverHolds(es[..n], key, ep);
      if key in s.routers {
        StepKeepsRouters(s, key, e);
        if e.AddEndpoint? {
          var i := RouterHasMaker(es[..n], key);
          MakerMakes(es[..n], key, i);
          assert Opens(es[i], key);
          NeverJoined(s, e, key, ep);
        }
      } else if Opens(e, key) {
        NeverMade(s, e, key, ep);
      }
    }
  }

  lemma SameSome(es: seq<Event>, es': seq<Event>, i: nat) returns (k: nat)
    requires SameEvents(es, es') && i < |es|
    ensures k < |es'| && es'[k] == es[i]
  {
    assert es[i] in es;
    k :| 0 <= k < |es'| && es'[k] == es[i];
  }

  lemma SameDispute(es: seq<Event>, es': seq<Event>, key: Key, i: nat, k: nat)
    requires SameEvents(es, es') && i < |es| && k < |es'| && es'[k] == es[i] && Opens(es[i], key) && !Undisputed(es, key, i)
    ensures !Undisputed(es', key, k)
  {
    var j :| 0 <= j < |es| && es[j].AddEndpoint? && es[j].initialises
             && Allowed(key.kind, es[j].ep, es[i].route) && es[j].ep in es[i].refusing;
    var j' := SameSome(es, es', j);
  }

  lemma SameTaken(es: seq<Event>, es': seq<Event>, key: Key, ep: Endpoint)
    requires SameEvents(es, es')
    ensures Present(es, ep) ==> Present(es', ep)
    ensures AlwaysTaken(es, key, ep) ==> AlwaysTaken(es', key, ep)
    ensures NeverTaken(es, key, ep) ==> NeverTaken(es', key, ep)
    ensures Spared(es, key, ep) ==> Spared(es', key, ep)
  {
    if Spared(es, key, ep) {
      forall i | 0 <= i < |es'| && Opens(es'[i], key) && !Undisputed(es', key, i) ensures ep in es'[i].refusing {
        var k := SameSome(es', es, i);
        SameDispute(es', es, key, i, k);
      }
    }
    forall i | 0 <= i < |es'| ensures exists k :: 0 <= k < |es| && es[k] == es'[i] {
      var k := SameSome(es', es, i);
    }
    if Present(es, ep) {
      var i :| 0 <= i < |es| && Brings(es[i], ep);
      var k := SameSome(es, es', i);
      assert Brings(es'[k], ep);
    }
  }

  lemma UndisputedOpens(es: seq<Event>, es': seq<Event>, key: Key, i: nat)
    requires SameEvents(es, es') && i < |es| && Undisputed(es, key, i)
    ensures key in Run(es').routers
  {
    var k := SameSome(es, es', i);
    var s := Run(es'[..k]);
    if key in s.routers {
      RouterStays(es', k, key);
    } else {
      if SomeRefuses(s.endpoints, key.kind, es[i].route, es[i].refusing) {
        var m := FirstRefuser(s.endpoints, key.kind, es[i].route, es[i].refusing);
        EndpointsOfRun(es'[..k], s.endpoints[m]);
        var j :| 0 <= j < k && Brings(es'[..k][j], s.endpoints[m]);
        var j' := SameSome(es', es, j);
      }
      assert Made(es', key, k);
      RouterIsMade(es', key);
    }
  }

  /** A call that fails after asking the endpoint is one that the endpoint does not refuse and another does. */
  lemma SparedIsUnspoilt(es: seq<Event>, key: Key, ep: Endpoint)
    requires Spared(es, key, ep)
    ensures !Spoilt(es, key, ep)
  {
    if Spoilt(es, key, ep) {
      var j :| 0 <= j < |es| && SpoiltBy(es, key, ep, j);
      var s, e := Run(es[..j]), es[j];
      var k := FirstRefuser(s.endpoints, e.kind, e.route, e.refusing);
      assert Contains(s.endpoints, s.endpoints[k]);
      EndpointsOfRun(es[..j], s.endpoints[k]);
      DisputedByPresent(es, key, j, s.endpoints[k]);
    }
  }

  lemma DisputedByPresent(es: seq<Event>, key: Key, j: nat, q: Endpoint)
    requires j < |es| && Opens(es[j], key) && Present(es[..j], q) && Disputes(q, key.kind, es[j].route, es[j].refusing)
    ensures !Undisputed(es, key, j)
  {
    var i :| 0 <= i < j && Brings(es[..j][i], q);
    assert es[i] == es[..j][i];
  }

  /** Where the calls decide each endpoint, those that are always taken work in every order and repetition of the calls. */
  lemma DecidedLives(es: seq<Event>, es': seq<Event>, key: Key, ep: Endpoint)
    requires SameEvents(es, es') && Decided(es, key)
    ensures key in Run(es').routers
    ensures Live(Run(es'), key, ep) <==> Present(es, ep) && AlwaysTaken(es, key, ep) && Spared(es, key, ep)
  {
    var i :| 0 <= i < |es| && Undisputed(es, key, i);
    UndisputedOpens(es, es', key, i);
    SameTaken(es, es', key, ep);
    SameTaken(es', es, key, ep);
    EndpointsOfRun(es', ep);
    RunWires(es', key, ep);
    RunLives(es', key, ep);
    if AlwaysTaken(es, key, ep) && Spared(es, key, ep) {
      TakenHolds(es', key, ep);
      SparedIsUnspoilt(es', key, ep);
    } else if Present(es, ep) {
      NeverHolds(es', key, ep);
    }
  }

  // ---------------------------------------------------------------- what no later call changes

  lemma RunNext(es: seq<Event>, e: Event)
    ensures Run(es + [e]) == Step(Run(es), e)
  {
    assert (es + [e])[..|es|] == es;
  }

  /** From s to s' the endpoint stays in or out of the router, and a member that has been lost stays lost. */
  predicate Settles(s: State, s': State, key: Key, ep: Endpoint) {
    && key in s'.routers && Contains(s'.endpoints, ep)
    && (Holds(s', key, ep) <==> Holds(s, key, ep)) && (Live(s', key, ep) ==> Live(s, key, ep))
  }

  lemma SettlesOn(s: State, s': State, s'': State, key: Key, ep: Endpoint)
    requires Settles(s, s', key, ep) && Settles(s', s'', key, ep)
    ensures Settles(s, s'', key, ep)
  {
  }

  lemma SettledNext(before: seq<Event>, e: Event, key: Key, ep: Endpoint)
    requires key in Run(before).routers && Contains(Run(before).endpoints, ep)
    ensures Settles(Run(before), Run(before + [e]), key, ep)
    ensures e.AddEndpoint? ==> (Live(Run(before + [e]), key, ep) <==> Live(Run(before), key, ep))
  {
    RunNext(before, e);
    RunKeepsHeld(before, key);
    SettledStep(Run(before), key, ep, e);
  }

  /** Once an endpoint has met a router, no later call changes whether it is in it, or brings a lost member back. */
  lemma {:induction false} MetIsSettled(before: seq<Event>, es: seq<Event>, key: Key, ep: Endpoint)
    requires key in Run(before).routers && Contains(Run(before).endpoints, ep)
    ensures Settles(Run(before), Run(before + es), key, ep)
  {
    if es == [] {
      assert before + es == before;
    } else {
      var n := |es| - 1;
      var mid := before + es[..n];
      MetIsSettled(before, es[..n], key, ep);
      SettledNext(mid, es[n], key, ep);
      SettlesOn(Run(before), Run(mid), Run(mid + [es[n]]), key, ep);
      assert mid + [es[n]] == before + es;
    }
  }

  lemma SettledStep(s: State, key: Key, ep: Endpoint, e: Event)
    requires key in s.routers && Contains(s.endpoints, ep) && HeldIsMade(s, key)
    ensures Contains(Step(s, e).endpoints, ep) && key in Step(s, e).routers
    ensures Holds(Step(s, e), key, ep) <==> Holds(s, key, ep)
    ensures Live(Step(s, e), key, ep) <==> Live(s, key, ep) && !(e.AddRoute? && Spoils(s, e, key, ep))
  {
    if e.AddEndpoint? {
      AppendContains(s.endpoints, e.ep, ep);
      AppendContains(s.routers[key].members, e.ep, ep);
      AddKeepsLive(s, e, key, ep);
    } else {
      CallKeepsLive(s, e, key, ep);
    }
  }

  predicate Stays(s: State, s': State, key: Key, ep: Endpoint) {
    && key in s'.routers && Contains(s'.endpoints, ep)
    && (Live(s', key, ep) <==> Live(s, key, ep))
  }

  lemma StaysOn(s: State, s': State, s'': State, key: Key, ep: Endpoint)
    requires Stays(s, s', key, ep) && Stays(s', s'', key, ep)
    ensures Stays(s, s'', key, ep)
  {
  }

  /** Endpoints that join later take nobody's membership. */
  lemma {:induction false} JoinsKeepLive(before: seq<Event>, es: seq<Event>, key: Key, ep: Endpoint)
    requires key in Run(before).routers && Contains(Run(before).endpoints, ep)
    requires forall k | 0 <= k < |es| :: es[k].AddEndpoint?
    ensures Stays(Run(before), Run(before + es), key, ep)
  {
    if es == [] {
      assert before + es == before;
    } else {
      var n := |es| - 1;
      var mid := before + es[..n];
      JoinsKeepLive(before, es[..n], key, ep);
      SettledNext(mid, es[n], key, ep);
      StaysOn(Run(before), Run(mid), Run(mid + [es[n]]), key, ep);
      assert mid + [es[n]] == before + es;
    }
  }

  /** Nor do calls while the endpoint is alone, or before any endpoint is there. */
  lemma {:induction false} CallsAlone(before: seq<Event>, es: seq<Event>, key: Key, ep: Endpoint)
    requires key in Run(before).routers && (Run(before).endpoints == [] || Run(before).endpoints == [ep])
    requires forall k | 0 <= k < |es| :: es[k].AddRoute?
    ensures var s := Run(before + es);
            && key in s.routers && s.routers[key] == Run(before).routers[key] && s.endpoints == Run(before).endpoints
            && (Live(s, key, ep) <==> Live(Run(before), key, ep))
  {
    if es == [] {
      assert before + es == before;
    } else {
      var n := |es| - 1;
      CallsAlone(before, es[..n], key, ep);
      assert before + es == (before + es[..n]) + [es[n]];
      RunNext(before + es[..n], es[n]);
      RunKeepsHeld(before + es[..n], key);
      var s := Run(before + es[..n]);
      StepKeepsRouters(s, key, es[n]);
      CallKeepsLive(s, es[n], key, ep);
      if s.endpoints == [ep] { assert IndexOf(s.endpoints, ep) == 0; }
    }
  }

  lemma RunOfTwo(a: Event, b: Event)
    ensures Run([a]) == Step(EMPTY, a) && Run([a, b]) == Step(Step(EMPTY, a), b)
  {
    assert [a, b][..1] == [a] && [a][..0] == [];
  }

  lemma BringToFront(es: seq<Event>, i: nat, j: nat) returns (rest: seq<Event>)
    requires i < j < |es|
    ensures Reordered(es, [es[i], es[j]] + rest) && Reordered(es, [es[j], es[i]] + rest)
  {
    rest := es[..i] + es[i + 1..j] + es[j + 1..];
    assert es == es[..i] + [es[i]] + es[i + 1..j] + [es[j]] + es[j + 1..];
  }

  lemma PairToFront(es: seq<Event>, i: nat, j: nat) returns (rest: seq<Event>)
    requires i < |es| && j < |es| && i != j
    ensures Reordered(es, [es[i], es[j]] + rest) && Reordered(es, [es[j], es[i]] + rest)
  {
    if i < j { rest := BringToFront(es, i, j); } else { rest := BringToFront(es, j, i); }
  }

  lemma SameInOrder(es: seq<Event>, es': seq<Event>, key: Key, ep: Endpoint)
    requires OrderIndependent(es, key) && Reordered(es, es')
    ensures key in Run(es).routers <==> key in Run(es').routers
    ensures Live(Run(es), key, ep) <==> Live(Run(es'), key, ep)
  {
    assert SameWiring(Run(es), Run(es'), key);
  }

  /** All calls, then the endpoint, then the others: nothing can spoil it, and the first call's route decides. */
  lemma RouteFirst(open: Event, add: Event, rest: seq<Event>, key: Key, ep: Endpoint)
    requires Opens(open, key) && Brings(add, ep)
    ensures var es := [open] + Calls(rest) + [add] + Joins(rest);
            Live(Run(es), key, ep) <==> Allowed(key.kind, ep, open.route) && key !in add.refuses
  {
    JoinsAndCalls(rest);
    CallFirst(open, key);
    CallsAlone([open], Calls(rest), key, ep);
    var before := [open] + Calls(rest);
    RunNext(before, add);
    RunWires(before, key, ep);
    EndpointsOfRun(before, ep);
    AddMakesLive(Run(before), add, key, ep);
    assert Run(before + [add]).endpoints == [] + [ep] == [ep];
    assert IndexOf([ep], ep) == 0;
    JoinsKeepLive(before + [add], Joins(rest), key, ep);
  }

  lemma CallFirst(open: Event, key: Key)
    requires Opens(open, key)
    ensures var s := Run([open]); s.endpoints == [] && key in s.routers && s.routers[key].route == open.route
  {
    RunOfTwo(open, open);
  }

  /** The endpoint, then all calls, then the others: alone it is not spoilt either. */
  lemma EndpointFirst(add: Event, open: Event, rest: seq<Event>, key: Key, ep: Endpoint)
    requires Opens(open, key) && Brings(add, ep) && Allowed(key.kind, ep, open.route) && ep !in open.refusing
    ensures Live(Run([add, open] + Calls(rest) + Joins(rest)), key, ep)
  {
    JoinsAndCalls(rest);
    EndpointThenRoute(add, open, key, ep);
    CallsAlone([add, open], Calls(rest), key, ep);
    JoinsKeepLive([add, open] + Calls(rest), Joins(rest), key, ep);
  }

  lemma EndpointThenRoute(add: Event, open: Event, key: Key, ep: Endpoint)
    requires Opens(open, key) && Brings(add, ep) && Allowed(key.kind, ep, open.route) && ep !in open.refusing
    ensures var s := Run([add, open]); s.endpoints == [ep] && key in s.routers && Live(s, key, ep)
  {
    RunOfTwo(add, open);
    assert Step(EMPTY, add).endpoints == [] + [ep] == [ep];
    assert IndexOf([ep], ep) == 0;
    MakingIsLive(Step(EMPTY, add), open, key, ep);
  }

  lemma Swapped(a: Event, b: Event, x: seq<Event>, y: seq<Event>)
    ensures multiset([a] + x + [b] + y) == multiset{a, b} + multiset(y + x)
  {
  }

  lemma Appended(a: Event, b: Event, x: seq<Event>, y: seq<Event>)
    ensures multiset([b, a] + x + y) == multiset{a, b} + multiset(y + x)
  {
    assert [b, a] == [b] + [a];
  }

  lemma OrderOfFour(es: seq<Event>, a: Event, b: Event, rest: seq<Event>)
    requires Reordered(es, [a, b] + rest)
    ensures Reordered(es, [a] + Calls(rest) + [b] + Joins(rest))
    ensures Reordered(es, [b, a] + Calls(rest) + Joins(rest))
  {
    JoinsThenCalls(rest);
    Appended(b, a, [], rest);
    assert [a, b] + [] + rest == [a, b] + rest && rest + [] == rest;
    Swapped(a, b, Calls(rest), Joins(rest));
    Appended(a, b, Calls(rest), Joins(rest));
  }

  lemma OrdersOfPair(es: seq<Event>, i: nat, j: nat) returns (rest: seq<Event>)
    requires i < |es| && j < |es| && i != j
    ensures Reordered(es, [es[i]] + Calls(rest) + [es[j]] + Joins(rest))
    ensures Reordered(es, [es[j], es[i]] + Calls(rest) + Joins(rest))
  {
    rest := PairToFront(es, i, j);
    OrderOfFour(es, es[i], es[j], rest);
  }

  lemma AddedFirstOrLast(es: seq<Event>, key: Key, ep: Endpoint, i: nat, j: nat)
    requires OrderIndependent(es, key) && i < |es| && j < |es| && Opens(es[i], key) && Brings(es[j], ep)
    ensures Live(Run(es), key, ep) <==> Allowed(key.kind, ep, es[i].route) && key !in es[j].refuses
    ensures Allowed(key.kind, ep, es[i].route) && !Live(Run(es), key, ep) ==> ep in es[i].refusing
  {
    var rest := OrdersOfPair(es, i, j);
    SameInOrder(es, [es[i]] + Calls(rest) + [es[j]] + Joins(rest), key, ep);
    SameInOrder(es, [es[j], es[i]] + Calls(rest) + Joins(rest), key, ep);
    RouteFirst(es[i], es[j], rest, key, ep);
    if Allowed(key.kind, ep, es[i].route) && ep !in es[i].refusing {
      EndpointFirst(es[j], es[i], rest, key, ep);
    }
  }

  // ---------------------------------------------------------------- an order that spoils a member

  /** Where the j-th element is when the i-th is gone. */
  function Shifted(j: nat, i: nat): nat
    requires j != i
  {
    if j < i then j else j - 1
  }

  lemma TakeOut(es: seq<Event>, i: nat)
    requires i < |es|
    ensures multiset(es) == multiset{es[i]} + multiset(DeleteAt(es, i))
  {
    assert es == es[..i] + [es[i]] + es[i + 1..];
  }

  lemma ShiftedAt(es: seq<Event>, i: nat, j: nat)
    requires i < |es| && j < |es| && i != j
    ensures Shifted(j, i) < |DeleteAt(es, i)| && DeleteAt(es, i)[Shifted(j, i)] == es[j]
  {
    DeletedElements(es, i);
  }

  lemma PutFirst(es: seq<Event>, i: nat, others: seq<Event>)
    requires i < |es| && Reordered(DeleteAt(es, i), others)
    ensures Reordered(es, [es[i]] + others)
  {
    TakeOut(es, i);
  }

  lemma Prepend(a: Event, order: seq<Event>, rest: seq<Event>)
    ensures [a] + (order + rest) == ([a] + order) + rest
  {
  }

  /** Takes the i-th out and puts it before an order of the others. */
  lemma PutBefore(es: seq<Event>, i: nat, order: seq<Event>, rest: seq<Event>)
    requires i < |es| && Reordered(DeleteAt(es, i), order + rest)
    ensures Reordered(es, ([es[i]] + order) + rest)
  {
    PutFirst(es, i, order + rest);
    Prepend(es[i], order, rest);
  }

  lemma ThreeToFront(es: seq<Event>, j: nat, k: nat, l: nat, order: seq<Event>) returns (rest: seq<Event>)
    requires j < |es| && k < |es| && l < |es| && j != k && j != l && k != l
    requires order == [es[j], es[k], es[l]]
    ensures Reordered(es, order + rest)
  {
    ShiftedAt(es, j, k);
    ShiftedAt(es, j, l);
    rest := PairToFront(DeleteAt(es, j), Shifted(k, j), Shifted(l, j));
    assert order[1..] == [es[k], es[l]];
    PutBefore(es, j, order[1..], rest);
    assert [es[j]] + order[1..] == order;
  }

  lemma FourToFront(es: seq<Event>, i: nat, j: nat, k: nat, l: nat, order: seq<Event>) returns (rest: seq<Event>)
    requires i < |es| && j < |es| && k < |es| && l < |es|
    requires i != j && i != k && i != l && j != k && j != l && k != l
    requires order == [es[i], es[j], es[k], es[l]]
    ensures Reordered(es, order + rest)
  {
    ShiftedAt(es, i, j);
    ShiftedAt(es, i, k);
    ShiftedAt(es, i, l);
    rest := ThreeToFront(DeleteAt(es, i), Shifted(j, i), Shifted(k, i), Shifted(l, i), order[1..]);
    PutBefore(es, i, order[1..], rest);
    assert [es[i]] + order[1..] == order;
  }

  /** A known route, the endpoint, one that refuses, and the call that it refuses. */
  lemma SpoilingOrder(u: Event, a: Event, b: Event, e: Event, rest: seq<Event>, key: Key, ep: Endpoint)
    requires Opens(u, key) && Brings(a, ep) && b.AddEndpoint? && b.initialises && b.ep != ep && Opens(e, key)
    requires Allowed(key.kind, ep, e.route) && ep !in e.refusing && Disputes(b.ep, key.kind, e.route, e.refusing)
    ensures !Live(Run([u, a, b, e] + rest), key, ep)
  {
    var before := [u, a, b];
    ThreeFirst(u, a, b, key);
    RunKeepsHeld(before, key);
    var s := Run(before);
    assert IndexOf(s.endpoints, ep) == 0;
    assert FirstRefuser(s.endpoints, e.kind, e.route, e.refusing) == 1;
    CallKeepsLive(s, e, key, ep);
    RunNext(before, e);
    StepKeepsRouters(s, key, e);
    assert before + [e] == [u, a, b, e];
    MetIsSettled(before + [e], rest, key, ep);
  }

  lemma ThreeFirst(u: Event, a: Event, b: Event, key: Key)
    requires Opens(u, key) && a.AddEndpoint? && a.initialises && b.AddEndpoint? && b.initialises && a.ep != b.ep
    ensures Run([u, a, b]).endpoints == [a.ep, b.ep] && key in Run([u, a, b]).routers
  {
    RunOfTwo(u, a);
    assert [u, a, b] == [u, a] + [b];
    RunNext([u, a], b);
    assert Run([u, a]).endpoints == [] + [a.ep] == [a.ep];
    assert IndexOf([a.ep], b.ep) == 1;
    assert [a.ep] + [b.ep] == [a.ep, b.ep];
  }

  lemma LiveIsSpared(es: seq<Event>, key: Key, ep: Endpoint, u: nat)
    requires OrderIndependent(es, key) && u < |es| && Undisputed(es, key, u) && Present(es, ep)
    requires Live(Run(es), key, ep) && AlwaysTaken(es, key, ep)
    ensures Spared(es, key, ep)
  {
    var a :| 0 <= a < |es| && Brings(es[a], ep);
    forall i | 0 <= i < |es| && Opens(es[i], key) && !Undisputed(es, key, i) ensures ep in es[i].refusing {
      var b :| 0 <= b < |es| && es[b].AddEndpoint? && es[b].initialises
               && Allowed(key.kind, es[b].ep, es[i].route) && es[b].ep in es[i].refusing;
      if ep !in es[i].refusing {
        var rest := FourToFront(es, u, a, b, i, [es[u], es[a], es[b], es[i]]);
        SpoilingOrder(es[u], es[a], es[b], es[i], rest, key, ep);
        SameInOrder(es, [es[u], es[a], es[b], es[i]] + rest, key, ep);
      }
    }
  }

  // ---------------------------------------------------------------- joins and calls apart

  function Joins(es: seq<Event>): seq<Event> {
    if es == [] then []
    else Joins(es[..|es| - 1]) + if es[|es| - 1].AddEndpoint? then [es[|es| - 1]] else []
  }

  function Calls(es: seq<Event>): seq<Event> {
    if es == [] then []
    else Calls(es[..|es| - 1]) + if es[|es| - 1].AddEndpoint? then [] else [es[|es| - 1]]
  }

  lemma {:induction false} JoinsAre(es: seq<Event>)
    ensures forall e :: e in Joins(es) <==> e in es && e.AddEndpoint?
  {
    if es == [] {
    } else {
      JoinsAre(es[..|es| - 1]);
      assert es == es[..|es| - 1] + [es[|es| - 1]];
    }
  }

  lemma {:induction false} CallsAre(es: seq<Event>)
    ensures forall k | 0 <= k < |Calls(es)| :: Calls(es)[k].AddRoute?
  {
    if es == [] {
    } else {
      CallsAre(es[..|es| - 1]);
    }
  }

  lemma {:induction false} JoinsThenCalls(es: seq<Event>)
    ensures Reordered(es, Joins(es) + Calls(es))
  {
    if es == [] {
    } else {
      JoinsThenCalls(es[..|es| - 1]);
      assert es == es[..|es| - 1] + [es[|es| - 1]];
    }
  }

  lemma JoinsAndCalls(es: seq<Event>)
    ensures forall e :: e in Joins(es) <==> e in es && e.AddEndpoint?
    ensures forall k | 0 <= k < |Calls(es)| :: Calls(es)[k].AddRoute?
    ensures Reordered(es, Joins(es) + Calls(es))
  {
    JoinsAre(es);
    CallsAre(es);
    JoinsThenCalls(es);
  }

  lemma JoinsOpenNothing(es: seq<Event>, key: Key)
    ensures key !in Run(Joins(es)).routers
  {
    var joins := Joins(es);
    JoinsAndCalls(es);
    RouterIsMade(joins, key);
    forall i | 0 <= i < |joins| ensures !Opens(joins[i], key) { assert joins[i] in joins; }
  }

  /** A call for the key that is disputed by an endpoint the container already has makes no router. */
  lemma DisputedFails(es: seq<Event>, before: seq<Event>, key: Key, i: nat)
    requires i < |es| && !Undisputed(es, key, i) && Joins(es) <= before && key !in Run(before).routers
    ensures key !in Step(Run(before), es[i]).routers
  {
    if Opens(es[i], key) {
      var j :| 0 <= j < |es| && es[j].AddEndpoint? && es[j].initialises
               && Allowed(key.kind, es[j].ep, es[i].route) && es[j].ep in es[i].refusing;
      JoinsAndCalls(es);
      assert es[j] in Joins(es);
      var k :| 0 <= k < |Joins(es)| && Joins(es)[k] == es[j];
      assert Brings(before[k], es[j].ep);
      EndpointsOfRun(before, es[j].ep);
    }
  }

  lemma {:induction false} DisputedNeverOpens(es: seq<Event>, key: Key, calls: seq<Event>)
    requires forall i | 0 <= i < |es| :: !Undisputed(es, key, i)
    requires forall k | 0 <= k < |calls| :: calls[k] in es
    ensures key !in Run(Joins(es) + calls).routers
    decreases |calls|
  {
    if calls == [] {
      assert Joins(es) + calls == Joins(es);
      JoinsOpenNothing(es, key);
    } else {
      var n := |calls| - 1;
      DisputedNeverOpens(es, key, calls[..n]);
      assert calls[n] in es;
      DisputedNext(es, Joins(es) + calls[..n], key, calls[n]);
      assert Joins(es) + calls[..n] + [calls[n]] == Joins(es) + calls;
    }
  }

  lemma DisputedNext(es: seq<Event>, before: seq<Event>, key: Key, e: Event)
    requires forall i | 0 <= i < |es| :: !Undisputed(es, key, i)
    requires e in es && Joins(es) <= before && key !in Run(before).routers
    ensures key !in Run(before + [e]).routers
  {
    RunNext(before, e);
    var i :| 0 <= i < |es| && es[i] == e;
    DisputedFails(es, before, key, i);
  }

  lemma AllDisputedNeverOpens(es: seq<Event>, key: Key)
    requires forall i | 0 <= i < |es| :: !Undisputed(es, key, i)
    ensures key !in Run(Joins(es) + Calls(es)).routers
  {
    JoinsAndCalls(es);
    ReorderedIsSame(es, Joins(es) + Calls(es));
    forall k | 0 <= k < |Calls(es)| ensures Calls(es)[k] in es {
      assert (Joins(es) + Calls(es))[|Joins(es)| + k] == Calls(es)[k];
    }
    DisputedNeverOpens(es, key, Calls(es));
  }

  lemma CallFirstOpens(open: Event, rest: seq<Event>, key: Key)
    requires Opens(open, key)
    ensures key in Run([open] + rest).routers
  {
    RunOfTwo(open, open);
    assert ([open] + rest)[..1] == [open];
    RouterStays([open] + rest, 1, key);
  }

  lemma SomeCallIsUndisputed(es: seq<Event>, key: Key, i: nat)
    requires OrderIndependent(es, key) && i < |es| && Opens(es[i], key)
    ensures exists k :: 0 <= k < |es| && Undisputed(es, key, k)
  {
    if forall k | 0 <= k < |es| :: !Undisputed(es, key, k) {
      var rest := es[..i] + es[i + 1..];
      assert es == es[..i] + [es[i]] + es[i + 1..];
      JoinsAndCalls(es);
      SameInOrder(es, [es[i]] + rest, key, Direct(0));
      SameInOrder(es, Joins(es) + Calls(es), key, Direct(0));
      AllDisputedNeverOpens(es, key);
      CallFirstOpens(es[i], rest, key);
    }
  }

  lemma AlwaysOrNever(es: seq<Event>, key: Key, ep: Endpoint)
    requires OrderIndependent(es, key) && Present(es, ep) && exists i :: 0 <= i < |es| && Opens(es[i], key)
    ensures if Live(Run(es), key, ep) then AlwaysTaken(es, key, ep) else NeverTaken(es, key, ep)
  {
    forall k, j | 0 <= k < |es| && 0 <= j < |es| && Opens(es[k], key) && Brings(es[j], ep)
      ensures Live(Run(es), key, ep) <==> Allowed(key.kind, ep, es[k].route) && key !in es[j].refuses
      ensures Allowed(key.kind, ep, es[k].route) && !Live(Run(es), key, ep) ==> ep in es[k].refusing
    {
      AddedFirstOrLast(es, key, ep, k, j);
    }
  }

  /**
   Every order of the same calls gives a key the same working members exactly when some call for it
   is disputed by no endpoint, and each endpoint either is always taken and refuses every call that
   some endpoint refuses, or is never taken.
   */
  lemma OrderIndependentIff(es: seq<Event>, key: Key)
    requires exists i :: 0 <= i < |es| && Opens(es[i], key)
    ensures OrderIndependent(es, key) <==> Decided(es, key)
  {
    if Decided(es, key) {
      forall es' | Reordered(es, es') ensures SameWiring(Run(es), Run(es'), key) {
        ReorderedIsSame(es, es');
        forall ep ensures Live(Run(es), key, ep) <==> Live(Run(es'), key, ep) {
          DecidedLives(es, es, key, ep);
          DecidedLives(es, es', key, ep);
        }
        DecidedLives(es, es, key, Direct(0));
        DecidedLives(es, es', key, Direct(0));
      }
    }
    if OrderIndependent(es, key) {
      var i :| 0 <= i < |es| && Opens(es[i], key);
      SomeCallIsUndisputed(es, key, i);
      var u :| 0 <= u < |es| && Undisputed(es, key, u);
      forall ep | Present(es, ep) ensures (AlwaysTaken(es, key, ep) && Spared(es, key, ep)) || NeverTaken(es, key, ep) {
        AlwaysOrNever(es, key, ep);
        if Live(Run(es), key, ep) { LiveIsSpared(es, key, ep, u); }
      }
    }
  }

  /** No endpoint refuses any call of the run. */
  predicate Willing(es: seq<Event>) {
    forall i | 0 <= i < |es| :: if es[i].AddRoute? then es[i].refusing == {} else es[i].refuses == {}
  }

  /** Where no endpoint refuses anything, order matters exactly when two routes of the key tell endpoints apart. */
  lemma WillingOrderIndependentIff(es: seq<Event>, key: Key)
    requires Willing(es) && exists i :: 0 <= i < |es| && Opens(es[i], key)
    ensures OrderIndependent(es, key) <==>
              forall ep, i, j | Present(es, ep) && 0 <= i < |es| && 0 <= j < |es| && Opens(es[i], key) && Opens(es[j], key) ::
                Allowed(key.kind, ep, es[i].route) <==> Allowed(key.kind, ep, es[j].route)
  {
    OrderIndependentIff(es, key);
    var i :| 0 <= i < |es| && Opens(es[i], key);
    assert Undisputed(es, key, i);
  }

  /** Two hashed routes that share an id and differ in prefix: the first one decides for this endpoint. */
  lemma SharedIdDependsOnOrder()
    ensures var ep, r, r' := Remote(0, "exa", ""), Route("hash", "ex"), Route("hash", "example");
            var es := [AddRoute(Intents, r, {}), AddRoute(Intents, r', {}), AddEndpoint(ep, true, {})];
            !OrderIndependent(es, Key(Intents, "hash"))
  {
    var ep, r, r' := Remote(0, "exa", ""), Route("hash", "ex"), Route("hash", "example");
    var es := [AddRoute(Intents, r, {}), AddRoute(Intents, r', {}), AddEndpoint(ep, true, {})];
    assert Brings(es[2], ep) && Opens(es[0], Key(Intents, "hash")) && Opens(es[1], Key(Intents, "hash"));
    WillingOrderIndependentIff(es, Key(Intents, "hash"));
    assert Present(es, ep);
    assert !Allowed(Intents, ep, es[0].route);
    assert "example"[..3] == "exa";
    assert Allowed(Intents, ep, es[1].route);
  }

  lemma KnownThenAdded(u: Event, a: Event, b: Event, key: Key, ep: Endpoint)
    requires Opens(u, key) && Brings(a, ep) && Allowed(key.kind, ep, u.route) && key !in a.refuses && b.AddEndpoint?
    ensures Live(Run([u, a, b]), key, ep)
  {
    RouteFirst(u, a, [b], key, ep);
    assert [b][..0] == [] && Calls([]) == [] && Joins([]) == [];
    assert Calls([b]) == [] && Joins([b]) == [] + [b] == [b];
    assert [u] + Calls([b]) + [a] + Joins([b]) == [u, a, b];
  }

  /**
   A call for a known route, refused by an endpoint that came later than a working member: the call
   fails, leaves the routers as they are, and closes the member's object.
   */
  lemma FailedCallClosesMember(u: Event, a: Event, b: Event, e: Event, key: Key, ep: Endpoint)
    requires Opens(u, key) && Brings(a, ep) && Allowed(key.kind, ep, u.route) && key !in a.refuses
    requires b.AddEndpoint? && b.initialises && b.ep != ep && Opens(e, key)
    requires Allowed(key.kind, ep, e.route) && ep !in e.refusing && Disputes(b.ep, key.kind, e.route, e.refusing)
    ensures Live(Run([u, a, b]), key, ep)
    ensures Holds(Run([u, a, b, e]), key, ep) && !Live(Run([u, a, b, e]), key, ep)
    ensures Run([u, a, b, e]).routers == Run([u, a, b]).routers
  {
    KnownThenAdded(u, a, b, key, ep);
    ThreeFirst(u, a, b, key);
    SpoilingOrder(u, a, b, e, [], key, ep);
    assert [u, a, b, e] + [] == [u, a, b, e] == [u, a, b] + [e];
    RunNext([u, a, b], e);
    assert !(ep == b.ep) && Run([u, a, b]).endpoints[1] == b.ep;
  }

  /** For instance with a handshaker that joins while it waits: published, joined, joined, published again. */
  lemma FailedCallExample()
    ensures var d, h, key, r := Direct(0), Direct(1), Key(Intents, "route"), Route("route", "path");
            var es := [AddRoute(Intents, r, {}), AddEndpoint(d, true, {}),
                       AddEndpoint(h, true, {key}), AddRoute(Intents, r, {h})];
            Holds(Run(es), key, d) && !Live(Run(es), key, d)
  {
    var d, h, key, r := Direct(0), Direct(1), Key(Intents, "route"), Route("route", "path");
    FailedCallClosesMember(AddRoute(Intents, r, {}), AddEndpoint(d, true, {}), AddEndpoint(h, true, {key}),
                           AddRoute(Intents, r, {h}), key, d);
  }
}
