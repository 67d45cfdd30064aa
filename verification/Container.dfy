/**
 The Container: endpoints and routed intents and interests arrive in any order; each route's
 router must end up with the endpoints that its path allows.
 */
module Container {
  import opened Sequences

  /** A remote endpoint publishes under its local path and subscribes under its remote path. */
  datatype Endpoint =
    | Direct(name: nat)
    | Remote(name: nat, localPath: string, remotePath: string)

  datatype Kind = Intents | Interests

  datatype Route = Route(id: string, path: string)

  datatype Key = Key(kind: Kind, id: string)

  /** `held` says which of an endpoint's objects for the key its member is. */
  datatype Router = Router(route: Route, members: seq<Endpoint>, held: map<Endpoint, nat>)

  datatype Slot = Slot(key: Key, ep: Endpoint)

  /** What an endpoint has registered for a key: how many objects it has made, and whether the last is open. */
  datatype Object = Object(open: bool, made: nat)

  predicate Allowed(kind: Kind, ep: Endpoint, r: Route) {
    match ep
    case Direct(_) => true
    case Remote(_, localPath, remotePath) => (if kind.Intents? then localPath else remotePath) <= r.path
  }

  function Filter(eps: seq<Endpoint>, kind: Kind, r: Route): seq<Endpoint> {
    if eps == [] then []
    else
      var last := eps[|eps| - 1];
      Filter(eps[..|eps| - 1], kind, r) + if Allowed(kind, last, r) then [last] else []
  }

  datatype State = State(endpoints: seq<Endpoint>, routers: map<Key, Router>, objects: map<Slot, Object>)

  const EMPTY := State([], map[], map[])

  function ObjectAt(objects: map<Slot, Object>, slot: Slot): Object {
    if slot in objects then objects[slot] else Object(false, 0)
  }

  /** An endpoint hands out the object that it has open, or else a new one. */
  function Given(o: Object): Object {
    if o.open then o else Object(true, o.made + 1)
  }

  function SlotsOf(key: Key, eps: seq<Endpoint>): set<Slot> {
    set ep | ep in eps :: Slot(key, ep)
  }

  function GiveAll(objects: map<Slot, Object>, slots: set<Slot>): map<Slot, Object> {
    map slot | slot in objects.Keys + slots :: if slot in slots then Given(ObjectAt(objects, slot)) else objects[slot]
  }

  function CloseAll(objects: map<Slot, Object>, slots: set<Slot>): map<Slot, Object> {
    map slot | slot in objects :: if slot in slots then objects[slot].(open := false) else objects[slot]
  }

  function HeldOf(objects: map<Slot, Object>, key: Key, eps: seq<Endpoint>): map<Endpoint, nat> {
    map ep | ep in eps :: ObjectAt(objects, Slot(key, ep)).made
  }

  /** The routers that a new endpoint joins: those that allow it and whose route it does not refuse. */
  predicate Enters(rt: Router, key: Key, ep: Endpoint, refuses: set<Key>) {
    Allowed(key.kind, ep, rt.route) && key !in refuses
  }

  function Joined(rt: Router, ep: Endpoint, made: nat): Router {
    rt.(members := rt.members + [ep], held := rt.held[ep := made])
  }

  function JoinedSlots(routers: map<Key, Router>, keys: set<Key>, ep: Endpoint, refuses: set<Key>): set<Slot> {
    set key | key in keys && key in routers && Enters(routers[key], key, ep, refuses) :: Slot(key, ep)
  }

  function JoinedRouter(s: State, key: Key, ep: Endpoint, refuses: set<Key>): Router
    requires key in s.routers
  {
    if Enters(s.routers[key], key, ep, refuses)
    then Joined(s.routers[key], ep, Given(ObjectAt(s.objects, Slot(key, ep))).made)
    else s.routers[key]
  }

  /** The state when the routers under `keys` have been visited. */
  function Visited(s: State, keys: set<Key>, ep: Endpoint, refuses: set<Key>): State {
    s.(routers := map key | key in s.routers :: if key in keys then JoinedRouter(s, key, ep, refuses) else s.routers[key],
       objects := GiveAll(s.objects, JoinedSlots(s.routers, keys, ep, refuses)))
  }

  function Added(s: State, ep: Endpoint, refuses: set<Key>): State {
    Visited(s, s.routers.Keys, ep, refuses).(endpoints := s.endpoints + [ep])
  }

  predicate Disputes(ep: Endpoint, kind: Kind, r: Route, refusing: set<Endpoint>) {
    Allowed(kind, ep, r) && ep in refusing
  }

  /** The first endpoint that is asked for an object and refuses, or |eps|. */
  function FirstRefuser(eps: seq<Endpoint>, kind: Kind, r: Route, refusing: set<Endpoint>): (k: nat)
    ensures k <= |eps|
    ensures k < |eps| ==> Disputes(eps[k], kind, r, refusing)
    ensures forall i | 0 <= i < k :: !Disputes(eps[i], kind, r, refusing)
  {
    if eps == [] then 0
    else if Disputes(eps[0], kind, r, refusing) then 0
    else 1 + FirstRefuser(eps[1..], kind, r, refusing)
  }

  predicate SomeRefuses(eps: seq<Endpoint>, kind: Kind, r: Route, refusing: set<Endpoint>) {
    FirstRefuser(eps, kind, r, refusing) < |eps|
  }

  /**
   Publish or Subscribe: asks the endpoints in turn. A refusal closes what the others gave, which for
   a known route are the objects that its router holds. Otherwise a known router stays as it is.
   */
  function Called(s: State, kind: Kind, r: Route, refusing: set<Endpoint>): State {
    var key := Key(kind, r.id);
    var asked := Filter(s.endpoints[..FirstRefuser(s.endpoints, kind, r, refusing)], kind, r);
    var given := GiveAll(s.objects, SlotsOf(key, asked));
    if SomeRefuses(s.endpoints, kind, r, refusing) then s.(objects := CloseAll(given, SlotsOf(key, asked)))
    else if key in s.routers then s.(objects := given)
    else s.(objects := given, routers := s.routers[key := Router(r, asked, HeldOf(given, key, asked))])
  }

  datatype Status = Ok | Duplicate | Failed

  class Container {
    var endpoints: seq<Endpoint>
    var routers: map<Key, Router>
    var objects: map<Slot, Object>       // of the endpoints, which the container only holds

    function View(): State
      reads this
    {
      State(endpoints, routers, objects)
    }

    constructor ()
      ensures View() == EMPTY
    {
      endpoints, routers, objects := [], map[], map[];
    }

    method Add(ep: Endpoint, initialises: bool, refuses: set<Key>) returns (status: Status)
      modifies this
      ensures Contains(old(endpoints), ep) ==> status == Duplicate && View() == old(View())
      ensures !Contains(old(endpoints), ep) && !initialises ==> status == Failed && View() == old(View())
      ensures !Contains(old(endpoints), ep) && initialises ==> status == Ok
      ensures View() == Step(old(View()), AddEndpoint(ep, initialises, refuses))
    {
      if Contains(endpoints, ep) {
        return Duplicate;
      }
      if !initialises {
        return Failed;
      }
      endpoints := endpoints + [ep];
      RegisterWithRouters(ep, refuses);
      return Ok;
    }

    /** Visits the routers in any order. */
    method RegisterWithRouters(ep: Endpoint, refuses: set<Key>)
      modifies this`routers, this`objects
      ensures View() == Visited(old(View()), old(routers).Keys, ep, refuses)
    {
      ghost var s := View();
      var left := routers.Keys;
      ghost var visited := {};
      VisitedNothing(s, ep, refuses);
      while left != {}
        invariant left !! visited && left + visited == s.routers.Keys
        invariant View() == Visited(s, visited, ep, refuses)
        decreases left
      {
        var key :| key in left;
        VisitNext(s, visited, key, ep, refuses);
        left, visited := left - {key}, visited + {key};
        if Allowed(key.kind, ep, routers[key].route) && key !in refuses {
          objects := objects[Slot(key, ep) := Given(ObjectAt(objects, Slot(key, ep)))];
          routers := routers[key := Joined(routers[key], ep, ObjectAt(objects, Slot(key, ep)).made)];
        }
      }
      assert visited == s.routers.Keys;
    }

    /** One endpoint's refusal fails the whole call, after the endpoints before it have given their objects. */
    method Register(kind: Kind, r: Route, refusing: set<Endpoint>) returns (status: Status)
      modifies this`routers, this`objects
      ensures status == Failed <==> SomeRefuses(endpoints, kind, r, refusing)
      ensures status != Failed ==> status == Ok
      ensures View() == Step(old(View()), AddRoute(kind, r, refusing))
    {
      var key := Key(kind, r.id);
      var members := [];
      ghost var k := FirstRefuser(endpoints, kind, r, refusing);
      var i := 0;
      while i < |endpoints|
        invariant 0 <= i <= k
        invariant routers == old(routers) && members == Filter(endpoints[..i], kind, r)
        invariant objects == GiveAll(old(objects), SlotsOf(key, members))
      {
        var ep := endpoints[i];
        assert endpoints[..i + 1][..i] == endpoints[..i];
        if Allowed(kind, ep, r) {
          if ep in refusing {
            assert Disputes(endpoints[i], kind, r, refusing) && i == k;
            CloseObjects(key, members);
            return Failed;
          }
          GiveNext(old(objects), key, members, ep);
          objects := objects[Slot(key, ep) := Given(ObjectAt(objects, Slot(key, ep)))];
          members := members + [ep];
        }
        i := i + 1;
      }
      assert endpoints[..i] == endpoints;
      if key in routers {
        return Ok;
      }
      routers := routers[key := Router(r, members, HeldOf(objects, key, members))];
      return Ok;
    }

    method CloseObjects(key: Key, eps: seq<Endpoint>)
      modifies this`objects
      ensures objects == CloseAll(old(objects), SlotsOf(key, eps))
    {
      var i := 0;
      while i < |eps|
        invariant 0 <= i <= |eps|
        invariant objects == CloseAll(old(objects), SlotsOf(key, eps[..i]))
      {
        var slot := Slot(key, eps[i]);
        if slot in objects {
          objects := objects[slot := objects[slot].(open := false)];
        }
        assert eps[..i + 1] == eps[..i] + [eps[i]];
        assert SlotsOf(key, eps[..i + 1]) == SlotsOf(key, eps[..i]) + {slot};
        i := i + 1;
      }
      assert eps[..i] == eps;
    }
  }

  lemma VisitedNothing(s: State, ep: Endpoint, refuses: set<Key>)
    ensures Visited(s, {}, ep, refuses) == s
  {
    assert JoinedSlots(s.routers, {}, ep, refuses) == {};
  }

  lemma VisitGives(s: State, keys: set<Key>, key: Key, ep: Endpoint, refuses: set<Key>)
    requires key in s.routers && key !in keys
    ensures var before, slot := GiveAll(s.objects, JoinedSlots(s.routers, keys, ep, refuses)), Slot(key, ep);
            && ObjectAt(before, slot) == ObjectAt(s.objects, slot)
            && GiveAll(s.objects, JoinedSlots(s.routers, keys + {key}, ep, refuses))
               == if Enters(s.routers[key], key, ep, refuses) then before[slot := Given(ObjectAt(before, slot))] else before
  {
    var slots, more := JoinedSlots(s.routers, keys, ep, refuses), JoinedSlots(s.routers, keys + {key}, ep, refuses);
    assert more == if Enters(s.routers[key], key, ep, refuses) then slots + {Slot(key, ep)} else slots;
  }

  lemma VisitNext(s: State, keys: set<Key>, key: Key, ep: Endpoint, refuses: set<Key>)
    requires key in s.routers && key !in keys
    ensures var v, next, slot := Visited(s, keys, ep, refuses), Visited(s, keys + {key}, ep, refuses), Slot(key, ep);
            && v.routers[key] == s.routers[key]
            && next == if !Enters(s.routers[key], key, ep, refuses) then v
                       else
                         var o := Given(ObjectAt(v.objects, slot));
                         v.(objects := v.objects[slot := o], routers := v.routers[key := Joined(s.routers[key], ep, o.made)])
  {
    VisitGives(s, keys, key, ep, refuses);
    var v, next := Visited(s, keys, ep, refuses), Visited(s, keys + {key}, ep, refuses);
    assert next.routers == v.routers[key := JoinedRouter(s, key, ep, refuses)];
  }

  lemma GiveNext(objects: map<Slot, Object>, key: Key, eps: seq<Endpoint>, ep: Endpoint)
    ensures var given := GiveAll(objects, SlotsOf(key, eps));
            GiveAll(objects, SlotsOf(key, eps + [ep])) == given[Slot(key, ep) := Given(ObjectAt(given, Slot(key, ep)))]
  {
    assert SlotsOf(key, eps + [ep]) == SlotsOf(key, eps) + {Slot(key, ep)};
  }

  // ---------------------------------------------------------------- runs

  /** Every call, the failing ones included: `refuses` and `refusing` are the endpoints' answers to it. */
  datatype Event =
    | AddEndpoint(ep: Endpoint, initialises: bool, refuses: set<Key>)
    | AddRoute(kind: Kind, route: Route, refusing: set<Endpoint>)

  function Step(s: State, e: Event): State {
    match e
    case AddEndpoint(ep, initialises, refuses) =>
      if Contains(s.endpoints, ep) || !initialises then s else Added(s, ep, refuses)
    case AddRoute(kind, r, refusing) => Called(s, kind, r, refusing)
  }

  function Run(es: seq<Event>): State {
    if es == [] then EMPTY else Step(Run(es[..|es| - 1]), es[|es| - 1])
  }

  predicate Opens(e: Event, key: Key) {
    e.AddRoute? && Key(e.kind, e.route.id) == key
  }

  predicate Brings(e: Event, ep: Endpoint) {
    e.AddEndpoint? && e.ep == ep && e.initialises
  }

  predicate Present(es: seq<Event>, ep: Endpoint) {
    exists i :: 0 <= i < |es| && Brings(es[i], ep)
  }

  /** The call that made the router: the first for its key that no endpoint refused at the time. */
  predicate Made(es: seq<Event>, key: Key, i: nat)
    requires i < |es|
  {
    Opens(es[i], key) && key !in Run(es[..i]).routers
    && !SomeRefuses(Run(es[..i]).endpoints, key.kind, es[i].route, es[i].refusing)
  }

  /** The endpoint joined the container when the router was there already, and refused its route. */
  predicate Missed(es: seq<Event>, key: Key, ep: Endpoint) {
    exists j :: 0 <= j < |es| && Brings(es[j], ep) && !Contains(Run(es[..j]).endpoints, ep)
                && key in Run(es[..j]).routers && key in es[j].refuses
  }

  lemma PresentNext(es: seq<Event>, ep: Endpoint)
    requires es != []
    ensures Present(es, ep) <==> Present(es[..|es| - 1], ep) || Brings(es[|es| - 1], ep)
  {
    var n := |es| - 1;
    if Present(es[..n], ep) {
      var i :| 0 <= i < n && Brings(es[..n][i], ep);
      assert Brings(es[i], ep);
    }
    if Present(es, ep) {
      var i :| 0 <= i < |es| && Brings(es[i], ep);
      if i < n { assert Brings(es[..n][i], ep); }
    }
  }

  lemma MissedNext(es: seq<Event>, key: Key, ep: Endpoint)
    requires es != []
    ensures var n := |es| - 1;
            Missed(es, key, ep) <==>
              || Missed(es[..n], key, ep)
              || (Brings(es[n], ep) && !Contains(Run(es[..n]).endpoints, ep)
                  && key in Run(es[..n]).routers && key in es[n].refuses)
  {
    var n := |es| - 1;
    var before := es[..n];
    forall j | 0 <= j < n ensures before[j] == es[j] && before[..j] == es[..j] {}
    if Missed(before, key, ep) {
      var j :| 0 <= j < n && Brings(before[j], ep) && !Contains(Run(before[..j]).endpoints, ep)
               && key in Run(before[..j]).routers && key in before[j].refuses;
      assert Brings(es[j], ep) && es[..j] == before[..j];
    }
    if Missed(es, key, ep) {
      var j :| 0 <= j < |es| && Brings(es[j], ep) && !Contains(Run(es[..j]).endpoints, ep)
               && key in Run(es[..j]).routers && key in es[j].refuses;
      if j < n { assert Brings(before[j], ep) && before[..j] == es[..j]; }
    }
  }

  lemma {:induction false} FilterIsAllowed(eps: seq<Endpoint>, kind: Kind, r: Route, ep: Endpoint)
    ensures Contains(Filter(eps, kind, r), ep) <==> Contains(eps, ep) && Allowed(kind, ep, r)
  {
    if eps == [] {
    } else {
      var n := |eps| - 1;
      FilterIsAllowed(eps[..n], kind, r, ep);
      assert eps == eps[..n] + [eps[n]];
      AppendContains(eps[..n], eps[n], ep);
      if Allowed(kind, eps[n], r) {
        AppendContains(Filter(eps[..n], kind, r), eps[n], ep);
      } else {
        assert Filter(eps, kind, r) == Filter(eps[..n], kind, r);
      }
    }
  }

  lemma {:induction false} FilterIsDistinct(eps: seq<Endpoint>, kind: Kind, r: Route)
    requires Distinct(eps)
    ensures Distinct(Filter(eps, kind, r))
  {
    if eps == [] {
    } else {
      var n := |eps| - 1;
      FilterIsDistinct(eps[..n], kind, r);
      FilterIsAllowed(eps[..n], kind, r, eps[n]);
      assert !Contains(eps[..n], eps[n]);
      DistinctAppend(Filter(eps[..n], kind, r), eps[n]);
    }
  }

  lemma DistinctAppend(s: seq<Endpoint>, ep: Endpoint)
    requires Distinct(s) && !Contains(s, ep)
    ensures Distinct(s + [ep])
  {
  }

  /** The container holds exactly the endpoints that were added and initialised, each once. */
  lemma {:induction false} EndpointsOfRun(es: seq<Event>, ep: Endpoint)
    ensures Contains(Run(es).endpoints, ep) <==> Present(es, ep)
    ensures Distinct(Run(es).endpoints)
  {
    if es == [] {
    } else {
      var s, e := Run(es[..|es| - 1]), es[|es| - 1];
      EndpointsOfRun(es[..|es| - 1], ep);
      PresentNext(es, ep);
      if e.AddEndpoint? && e.initialises && !Contains(s.endpoints, e.ep) {
        AppendContains(s.endpoints, e.ep, ep);
        DistinctAppend(s.endpoints, e.ep);
      }
    }
  }

  // ---------------------------------------------------------------- what every router holds

  lemma MadeNext(es: seq<Event>, key: Key, i: nat)
    requires i < |es| - 1
    ensures Made(es[..|es| - 1], key, i) <==> Made(es, key, i)
  {
    assert es[..|es| - 1][..i] == es[..i];
  }

  lemma StepKeepsRouters(s: State, key: Key, e: Event)
    requires key in s.routers
    ensures key in Step(s, e).routers && Step(s, e).routers[key].route == s.routers[key].route
    ensures e.AddRoute? ==> Step(s, e).routers[key] == s.routers[key] && Step(s, e).endpoints == s.endpoints
  {
  }

  lemma UnrefusedMakes(s: State, e: Event, key: Key)
    requires Opens(e, key) && key !in s.routers && !SomeRefuses(s.endpoints, e.kind, e.route, e.refusing)
    ensures key in Step(s, e).routers && Step(s, e).routers[key].route == e.route
  {
  }

  lemma MakerMakes(es: seq<Event>, key: Key, i: nat)
    requires i < |es| && Made(es, key, i)
    ensures key in Run(es).routers && Run(es).routers[key].route == es[i].route
  {
    UnrefusedMakes(Run(es[..i]), es[i], key);
    assert es[..i + 1][..i] == es[..i];
    RouterStays(es, i + 1, key);
  }

  lemma {:induction false} RouterHasMaker(es: seq<Event>, key: Key) returns (i: nat)
    requires key in Run(es).routers
    ensures i < |es| && Made(es, key, i)
  {
    i := |es| - 1;
    if key in Run(es[..i]).routers {
      var n := i;
      i := RouterHasMaker(es[..n], key);
      MadeNext(es, key, i);
    }
  }

  /** A router is there exactly when some call made it, and keeps the route of that call. */
  lemma RouterIsMade(es: seq<Event>, key: Key)
    ensures key in Run(es).routers <==> exists i :: 0 <= i < |es| && Made(es, key, i)
    ensures forall i | 0 <= i < |es| && Made(es, key, i) ::
              key in Run(es).routers && Run(es).routers[key].route == es[i].route
  {
    if key in Run(es).routers {
      var i := RouterHasMaker(es, key);
    }
    forall i | 0 <= i < |es| && Made(es, key, i)
      ensures key in Run(es).routers && Run(es).routers[key].route == es[i].route
    {
      MakerMakes(es, key, i);
    }
  }

  lemma JoiningHolds(s: State, key: Key, e: Event, ep: Endpoint)
    requires e.AddEndpoint? && key in s.routers && Distinct(s.routers[key].members)
    requires Contains(s.routers[key].members, e.ep) ==> Contains(s.endpoints, e.ep)
    ensures var members := Step(s, e).routers[key].members;
            && Distinct(members)
            && (Contains(members, ep) <==>
                  || Contains(s.routers[key].members, ep)
                  || (Brings(e, ep) && !Contains(s.endpoints, ep)
                      && Allowed(key.kind, ep, s.routers[key].route) && key !in e.refuses))
  {
    var members := s.routers[key].members;
    AppendContains(members, e.ep, ep);
    if e.initialises && !Contains(s.endpoints, e.ep) { DistinctAppend(members, e.ep); }
  }

  lemma {:induction false} RouterStays(es: seq<Event>, j: nat, key: Key)
    requires j <= |es| && key in Run(es[..j]).routers
    ensures key in Run(es).routers && Run(es).routers[key].route == Run(es[..j]).routers[key].route
  {
    if j == |es| {
      assert es[..j] == es;
    } else {
      var n := |es| - 1;
      assert es[..n][..j] == es[..j];
      RouterStays(es[..n], j, key);
      StepKeepsRouters(Run(es[..n]), key, es[n]);
    }
  }

  lemma MissedIsKnown(es: seq<Event>, key: Key, ep: Endpoint)
    requires Missed(es, key, ep)
    ensures key in Run(es).routers && Present(es, ep)
  {
    var j :| 0 <= j < |es| && Brings(es[j], ep) && !Contains(Run(es[..j]).endpoints, ep)
             && key in Run(es[..j]).routers && key in es[j].refuses;
    RouterStays(es, j, key);
  }

  predicate Wired(es: seq<Event>, key: Key, ep: Endpoint)
    requires key in Run(es).routers
  {
    var rt := Run(es).routers[key];
    Contains(rt.members, ep) <==> Present(es, ep) && Allowed(key.kind, ep, rt.route) && !Missed(es, key, ep)
  }

  lemma OldRouterIsWired(es: seq<Event>, key: Key, ep: Endpoint)
    requires es != [] && key in Run(es[..|es| - 1]).routers && Distinct(Run(es[..|es| - 1]).routers[key].members)
    requires Wired(es[..|es| - 1], key, ep)
    requires var e := es[|es| - 1]; e.AddEndpoint? ==> Wired(es[..|es| - 1], key, e.ep)
    ensures key in Run(es).routers && Distinct(Run(es).routers[key].members) && Wired(es, key, ep)
  {
    var n := |es| - 1;
    var s, e := Run(es[..n]), es[n];
    StepKeepsRouters(s, key, e);
    EndpointsOfRun(es[..n], ep);
    PresentNext(es, ep);
    MissedNext(es, key, ep);
    if Missed(es[..n], key, ep) { MissedIsKnown(es[..n], key, ep); }
    if e.AddEndpoint? {
      EndpointsOfRun(es[..n], e.ep);
      JoiningHolds(s, key, e, ep);
    }
  }

  lemma NewRouterIsWired(es: seq<Event>, key: Key, ep: Endpoint)
    requires es != [] && key !in Run(es[..|es| - 1]).routers && key in Run(es).routers
    ensures Distinct(Run(es).routers[key].members) && Wired(es, key, ep)
  {
    var n := |es| - 1;
    var s, e := Run(es[..n]), es[n];
    EndpointsOfRun(es[..n], ep);
    PresentNext(es, ep);
    MissedNext(es, key, ep);
    if Missed(es[..n], key, ep) { MissedIsKnown(es[..n], key, ep); }
    assert s.endpoints[..|s.endpoints|] == s.endpoints;
    assert Run(es).routers[key].members == Filter(s.endpoints, e.kind, e.route);
    FilterIsAllowed(s.endpoints, e.kind, e.route, ep);
    FilterIsDistinct(s.endpoints, e.kind, e.route);
  }

  /**
   In every run a router holds an endpoint exactly when the container has it, the route allows it
   and it did not join later while refusing the route; and it holds it once.
   */
  lemma {:induction false} RunWires(es: seq<Event>, key: Key, ep: Endpoint)
    requires key in Run(es).routers
    ensures Distinct(Run(es).routers[key].members) && Wired(es, key, ep)
  {
    var n := |es| - 1;
    if key !in Run(es[..n]).routers {
      NewRouterIsWired(es, key, ep);
    } else {
      RunWires(es[..n], key, ep);
      if es[n].AddEndpoint? { RunWires(es[..n], key, es[n].ep); }
      OldRouterIsWired(es, key, ep);
    }
  }

  /** Registered, then added while refusing: both calls succeed, and the allowed endpoint stays out. */
  lemma RefusedEndpointStaysOut()
    ensures var ep, key := Direct(0), Key(Intents, "route");
            var es := [AddRoute(Intents, Route("route", "path"), {}), AddEndpoint(ep, true, {key})];
            && Run(es).endpoints == [ep] && key in Run(es).routers
            && Allowed(Intents, ep, Run(es).routers[key].route) && Run(es).routers[key].members == []
  {
    var ep, key, r := Direct(0), Key(Intents, "route"), Route("route", "path");
    var open, add := AddRoute(Intents, r, {}), AddEndpoint(ep, true, {key});
    assert [open, add][..1] == [open] && [open][..0] == [];
    assert Filter([], Intents, r) == [];
    assert Run([open]).endpoints == [] && Run([open]).routers == map[key := Router(r, [], map[])];
    assert [] + [ep] == [ep];
  }

  // ---------------------------------------------------------------- which members still work

  predicate Holds(s: State, key: Key, ep: Endpoint) {
    key in s.routers && Contains(s.routers[key].members, ep)
  }

  /** The router holds the endpoint's object, and that object is open. */
  predicate Live(s: State, key: Key, ep: Endpoint) {
    && Holds(s, key, ep) && ep in s.routers[key].held
    && ObjectAt(s.objects, Slot(key, ep)) == Object(true, s.routers[key].held[ep])
  }

  /** A call for the key that fails after this endpoint has given its object. */
  predicate Spoils(s: State, e: Event, key: Key, ep: Endpoint) {
    && Opens(e, key) && SomeRefuses(s.endpoints, e.kind, e.route, e.refusing)
    && Allowed(e.kind, ep, e.route) && IndexOf(s.endpoints, ep) < FirstRefuser(s.endpoints, e.kind, e.route, e.refusing)
  }

  /** While its router was there and the endpoint in the container, some call spoiled the endpoint's object. */
  predicate Spoilt(es: seq<Event>, key: Key, ep: Endpoint) {
    exists j :: 0 <= j < |es| && SpoiltBy(es, key, ep, j)
  }

  predicate SpoiltBy(es: seq<Event>, key: Key, ep: Endpoint, j: nat)
    requires j < |es|
  {
    var s := Run(es[..j]);
    key in s.routers && Contains(s.endpoints, ep) && Spoils(s, es[j], key, ep)
  }

  /** A router holds no object that its endpoint has not made yet. */
  ghost predicate HeldIsMade(s: State, key: Key) {
    key in s.routers ==>
      && (forall ep | ep in s.routers[key].held :: s.routers[key].held[ep] <= ObjectAt(s.objects, Slot(key, ep)).made)
      && (forall ep | Contains(s.routers[key].members, ep) :: ep in s.routers[key].held)
  }

  lemma PrefixContains(eps: seq<Endpoint>, k: nat, ep: Endpoint)
    requires k <= |eps|
    ensures Contains(eps[..k], ep) <==> IndexOf(eps, ep) < k
  {
    var i := IndexOf(eps, ep);
    if i < k { assert eps[..k][i] == ep; }
    if Contains(eps[..k], ep) { assert eps[IndexOf(eps[..k], ep)] == ep; }
  }

  lemma ContainsIsIn(eps: seq<Endpoint>, ep: Endpoint)
    ensures Contains(eps, ep) <==> ep in eps
  {
    if ep in eps { var i :| 0 <= i < |eps| && eps[i] == ep; }
  }

  lemma GivenAt(objects: map<Slot, Object>, slots: set<Slot>, slot: Slot)
    ensures var o, given := ObjectAt(objects, slot), GiveAll(objects, slots);
            && ObjectAt(given, slot) == (if slot in slots then Given(o) else o)
            && ObjectAt(CloseAll(given, slots), slot) == if slot in slots then Given(o).(open := false) else o
  {
  }

  lemma AskedSlots(eps: seq<Endpoint>, k: nat, e: Event, key: Key, ep: Endpoint)
    requires e.AddRoute? && k <= |eps|
    ensures Slot(key, ep) in SlotsOf(Key(e.kind, e.route.id), Filter(eps[..k], e.kind, e.route))
       <==> Opens(e, key) && Allowed(e.kind, ep, e.route) && IndexOf(eps, ep) < k
  {
    FilterIsAllowed(eps[..k], e.kind, e.route, ep);
    PrefixContains(eps, k, ep);
    ContainsIsIn(Filter(eps[..k], e.kind, e.route), ep);
  }

  /** What a call for another key, or one for this key, does to the endpoint's object. */
  lemma CallObject(s: State, e: Event, key: Key, ep: Endpoint)
    requires e.AddRoute?
    ensures var o := ObjectAt(s.objects, Slot(key, ep));
            var asked := Opens(e, key) && Allowed(e.kind, ep, e.route)
                         && IndexOf(s.endpoints, ep) < FirstRefuser(s.endpoints, e.kind, e.route, e.refusing);
            ObjectAt(Step(s, e).objects, Slot(key, ep))
            == if !asked then o
               else if SomeRefuses(s.endpoints, e.kind, e.route, e.refusing) then Given(o).(open := false) else Given(o)
  {
    var k := FirstRefuser(s.endpoints, e.kind, e.route, e.refusing);
    var asked := Filter(s.endpoints[..k], e.kind, e.route);
    AskedSlots(s.endpoints, k, e, key, ep);
    GivenAt(s.objects, SlotsOf(Key(e.kind, e.route.id), asked), Slot(key, ep));
  }

  /**
   Whom a call asks: publishing, the direct endpoints and the remote ones whose local path is a prefix
   of the route's; subscribing, those whose remote path is. They have an open object afterwards, and
   everybody else what it had.
   */
  lemma CallAsks(s: State, kind: Kind, r: Route, key: Key, ep: Endpoint)
    ensures var o, o' := ObjectAt(s.objects, Slot(key, ep)), ObjectAt(Called(s, kind, r, {}).objects, Slot(key, ep));
            var asked := key == Key(kind, r.id) && Contains(s.endpoints, ep)
                         && match (kind, ep)
                            case (_, Direct(_)) => true
                            case (Intents, Remote(_, localPath, _)) => localPath <= r.path
                            case (Interests, Remote(_, _, remotePath)) => remotePath <= r.path;
            && (asked ==> o'.open && o'.made == if o.open then o.made else o.made + 1)
            && (!asked ==> o' == o)
  {
    CallObject(s, AddRoute(kind, r, {}), key, ep);
  }

  /** For an endpoint that the container has, a step ends its membership exactly by spoiling it. */
  lemma CallKeepsLive(s: State, e: Event, key: Key, ep: Endpoint)
    requires e.AddRoute? && key in s.routers && HeldIsMade(s, key)
    ensures Live(Step(s, e), key, ep) <==> Live(s, key, ep) && !Spoils(s, e, key, ep)
  {
    CallObject(s, e, key, ep);
  }

  lemma CallKeepsHeld(s: State, e: Event, key: Key)
    requires e.AddRoute? && HeldIsMade(s, key)
    ensures HeldIsMade(Step(s, e), key)
  {
    forall ep ensures ObjectAt(Step(s, e).objects, Slot(key, ep)).made >= ObjectAt(s.objects, Slot(key, ep)).made {
      CallObject(s, e, key, ep);
    }
    if key in Step(s, e).routers && key !in s.routers {
      var members := Step(s, e).routers[key].members;
      forall ep ensures Contains(members, ep) <==> ep in members { ContainsIsIn(members, ep); }
    }
  }

  lemma AddObject(s: State, e: Event, key: Key, ep: Endpoint)
    requires e.AddEndpoint? && key in s.routers
    ensures var o := ObjectAt(s.objects, Slot(key, ep));
            ObjectAt(Step(s, e).objects, Slot(key, ep))
            == if Brings(e, ep) && !Contains(s.endpoints, ep) && Enters(s.routers[key], key, ep, e.refuses) then Given(o) else o
  {
    assert Slot(key, ep) in JoinedSlots(s.routers, s.routers.Keys, e.ep, e.refuses)
      <==> ep == e.ep && Enters(s.routers[key], key, ep, e.refuses);
  }

  lemma AddKeepsLive(s: State, e: Event, key: Key, ep: Endpoint)
    requires e.AddEndpoint? && key in s.routers && Contains(s.endpoints, ep)
    ensures Live(Step(s, e), key, ep) <==> Live(s, key, ep)
  {
    AddObject(s, e, key, ep);
    AppendContains(s.routers[key].members, e.ep, ep);
  }

  lemma AddMakesLive(s: State, e: Event, key: Key, ep: Endpoint)
    requires Brings(e, ep) && key in s.routers && !Contains(s.endpoints, ep) && !Contains(s.routers[key].members, ep)
    ensures Live(Step(s, e), key, ep) <==> Enters(s.routers[key], key, ep, e.refuses)
  {
    AddObject(s, e, key, ep);
    AppendContains(s.routers[key].members, ep, ep);
  }

  lemma AddKeepsHeld(s: State, e: Event, key: Key)
    requires e.AddEndpoint? && HeldIsMade(s, key)
    ensures HeldIsMade(Step(s, e), key)
  {
    if key in s.routers {
      forall ep ensures ObjectAt(Step(s, e).objects, Slot(key, ep)).made >= ObjectAt(s.objects, Slot(key, ep)).made {
        AddObject(s, e, key, ep);
      }
      AddObject(s, e, key, e.ep);
      forall ep ensures Contains(s.routers[key].members + [e.ep], ep) <==> Contains(s.routers[key].members, ep) || ep == e.ep {
        AppendContains(s.routers[key].members, e.ep, ep);
      }
    }
  }

  lemma {:induction false} RunKeepsHeld(es: seq<Event>, key: Key)
    ensures HeldIsMade(Run(es), key)
  {
    if es == [] {
    } else {
      var s, e := Run(es[..|es| - 1]), es[|es| - 1];
      RunKeepsHeld(es[..|es| - 1], key);
      if e.AddEndpoint? { AddKeepsHeld(s, e, key); } else { CallKeepsHeld(s, e, key); }
    }
  }

  lemma MakingIsLive(s: State, e: Event, key: Key, ep: Endpoint)
    requires key !in s.routers && key in Step(s, e).routers
    ensures Live(Step(s, e), key, ep) <==> Contains(s.endpoints, ep) && Allowed(key.kind, ep, e.route)
  {
    CallObject(s, e, key, ep);
    assert s.endpoints[..|s.endpoints|] == s.endpoints;
    FilterIsAllowed(s.endpoints, e.kind, e.route, ep);
    ContainsIsIn(Filter(s.endpoints, e.kind, e.route), ep);
  }

  lemma SpoiltNext(es: seq<Event>, key: Key, ep: Endpoint)
    requires es != []
    ensures Spoilt(es, key, ep) <==> Spoilt(es[..|es| - 1], key, ep) || SpoiltBy(es, key, ep, |es| - 1)
  {
    var n := |es| - 1;
    forall j | 0 <= j < n ensures SpoiltBy(es, key, ep, j) <==> SpoiltBy(es[..n], key, ep, j) {
      assert es[..n][..j] == es[..j];
    }
  }

  lemma SpoiltIsKnown(es: seq<Event>, key: Key, ep: Endpoint)
    requires Spoilt(es, key, ep)
    ensures key in Run(es).routers && Present(es, ep)
  {
    var j :| 0 <= j < |es| && SpoiltBy(es, key, ep, j);
    RouterStays(es, j, key);
    EndpointsOfRun(es[..j], ep);
    var i :| 0 <= i < j && Brings(es[..j][i], ep);
    assert Brings(es[i], ep);
  }

  predicate LivesAsWired(es: seq<Event>, key: Key, ep: Endpoint)
    requires key in Run(es).routers
  {
    Live(Run(es), key, ep) <==>
      && Present(es, ep) && Allowed(key.kind, ep, Run(es).routers[key].route)
      && !Missed(es, key, ep) && !Spoilt(es, key, ep)
  }

  lemma CalledLivesNext(es: seq<Event>, key: Key, ep: Endpoint)
    requires es != [] && es[|es| - 1].AddRoute?
    requires key in Run(es[..|es| - 1]).routers && LivesAsWired(es[..|es| - 1], key, ep)
    ensures key in Run(es).routers && LivesAsWired(es, key, ep)
  {
    var n := |es| - 1;
    var s, e := Run(es[..n]), es[n];
    StepKeepsRouters(s, key, e);
    RunKeepsHeld(es[..n], key);
    CallKeepsLive(s, e, key, ep);
    PresentNext(es, ep);
    MissedNext(es, key, ep);
    SpoiltNext(es, key, ep);
    EndpointsOfRun(es[..n], ep);
    assert SpoiltBy(es, key, ep, n) <==> Contains(s.endpoints, ep) && Spoils(s, e, key, ep);
  }

  lemma AddedLivesNext(es: seq<Event>, key: Key, ep: Endpoint)
    requires es != [] && es[|es| - 1].AddEndpoint?
    requires key in Run(es[..|es| - 1]).routers && LivesAsWired(es[..|es| - 1], key, ep)
    ensures key in Run(es).routers && LivesAsWired(es, key, ep)
  {
    var n := |es| - 1;
    var s, e := Run(es[..n]), es[n];
    StepKeepsRouters(s, key, e);
    PresentNext(es, ep);
    MissedNext(es, key, ep);
    SpoiltNext(es, key, ep);
    EndpointsOfRun(es[..n], ep);
    RunWires(es[..n], key, ep);
    RunWires(es, key, ep);
    if Missed(es[..n], key, ep) { MissedIsKnown(es[..n], key, ep); }
    if Spoilt(es[..n], key, ep) { SpoiltIsKnown(es[..n], key, ep); }
    if Contains(s.endpoints, ep) {
      AddKeepsLive(s, e, key, ep);
    } else if Brings(e, ep) {
      AddMakesLive(s, e, key, ep);
    }
  }

  lemma MadeLives(es: seq<Event>, key: Key, ep: Endpoint)
    requires es != [] && key !in Run(es[..|es| - 1]).routers && key in Run(es).routers
    ensures LivesAsWired(es, key, ep)
  {
    var n := |es| - 1;
    MakingIsLive(Run(es[..n]), es[n], key, ep);
    PresentNext(es, ep);
    MissedNext(es, key, ep);
    SpoiltNext(es, key, ep);
    EndpointsOfRun(es[..n], ep);
    if Missed(es[..n], key, ep) { MissedIsKnown(es[..n], key, ep); }
    if Spoilt(es[..n], key, ep) { SpoiltIsKnown(es[..n], key, ep); }
  }

  /**
   In every run an endpoint is a working member of a router exactly when the container has it, the
   route allows it, it did not join later while refusing the route, and no failing call for the key
   has asked it before another endpoint refused.
   */
  lemma {:induction false} RunLives(es: seq<Event>, key: Key, ep: Endpoint)
    requires key in Run(es).routers
    ensures LivesAsWired(es, key, ep)
  {
    var n := |es| - 1;
    if key !in Run(es[..n]).routers {
      MadeLives(es, key, ep);
    } else {
      RunLives(es[..n], key, ep);
      if es[n].AddRoute? { CalledLivesNext(es, key, ep); } else { AddedLivesNext(es, key, ep); }
    }
  }
}
