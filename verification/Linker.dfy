/**
 The Linker's own maps, keyed by route id: each method does to the entries of its route what
 the per-route critical section says and leaves every other route alone. Runs of the whole
 Linker are therefore runs of each route.
 */
module Linker {
  import opened Wrappers
  import opened LinkTable

  type Route = string

  class Linker {
    var intents: map<Route, nat>
    var interests: map<Route, nat>
    var links: map<Route, Link>
    var runtimes: map<Route, Runtime>   // the route's objects and goroutines

    ghost function At(r: Route): Cell
      reads this
    {
      Cell(if r in intents then Some(intents[r]) else None,
           if r in interests then Some(interests[r]) else None,
           if r in links then Some(links[r]) else None,
           if r in runtimes then runtimes[r] else IDLE)
    }

    constructor ()
      ensures forall r :: At(r) == EMPTY
    {
      intents, interests, links, runtimes := map[], map[], map[], map[];
    }

    method Runtime(r: Route) returns (rt: Runtime)
      ensures rt == At(r).rt
    {
      rt := if r in runtimes then runtimes[r] else IDLE;
    }

    method AddIntentLocked(r: Route, ok: bool, accepts: bool) returns (intent: Option<nat>)
      modifies this
      ensures At(r) == AddIntent(old(At(r)), ok, accepts)
      ensures forall q | q != r :: At(q) == old(At(q))
      ensures intent == if old(At(r)).intent.None? && !ok then None else At(r).intent
      ensures r in old(intents) ==> intents == old(intents)
      ensures r !in old(intents) ==> intents == if ok then old(intents)[r := old(At(r)).rt.next] else old(intents)
      ensures interests == old(interests)
    {
      if r in intents {
        return Some(intents[r]);
      }
      if !ok {
        return None;
      }
      var rt := Runtime(r);
      var n := rt.next;
      runtimes := runtimes[r := rt.(openIntents := rt.openIntents + {n}, next := n + 1)];
      intents := intents[r := n];
      if r in interests {
        Link(r, n, interests[r], accepts);
      }
      return Some(n);
    }

    method AddInterestLocked(r: Route, ok: bool, accepts: bool) returns (interest: Option<nat>)
      modifies this
      ensures At(r) == AddInterest(old(At(r)), ok, accepts)
      ensures forall q | q != r :: At(q) == old(At(q))
      ensures interest == if old(At(r)).interest.None? && !ok then None else At(r).interest
      ensures r in old(interests) ==> interests == old(interests)
      ensures r !in old(interests) ==> interests == if ok then old(interests)[r := old(At(r)).rt.next] else old(interests)
      ensures intents == old(intents)
    {
      if r in interests {
        return Some(interests[r]);
      }
      if !ok {
        return None;
      }
      var rt := Runtime(r);
      var n := rt.next;
      runtimes := runtimes[r := rt.(openInterests := rt.openInterests + {n}, next := n + 1)];
      interests := interests[r := n];
      if r in intents {
        Link(r, intents[r], n, accepts);
      }
      return Some(n);
    }

    method Link(r: Route, intent: nat, interest: nat, accepts: bool)
      requires At(r).intent == Some(intent) && At(r).interest == Some(interest)
      modifies this`links, this`runtimes
      ensures At(r) == LinkUp(old(At(r)), accepts)
      ensures forall q | q != r :: At(q) == old(At(q))
    {
      if r in links || !accepts {
        return;
      }
      var rt := Runtime(r);
      var link := LinkTable.Link.Link(rt.next, intent, interest);
      links := links[r := link];
      runtimes := runtimes[r := rt.(tasks := rt.tasks + {LinkTable.Connect(link)}, next := rt.next + 1)];
    }

    /** LocalIntent.Link with a channel; a second, different channel panics. */
    method Connect(r: Route, l: Link)
      modifies this`runtimes
      ensures At(r) == Perform(old(At(r)), LinkTable.Connect(l))
      ensures At(r).rt.panicked <==>
                old(At(r)).rt.panicked
                || (l.intent in old(At(r)).rt.output && old(At(r)).rt.output[l.intent] != l.interest)
      ensures forall q | q != r :: At(q) == old(At(q))
    {
      var rt := Runtime(r);
      if l.intent in rt.output && rt.output[l.intent] != l.interest {
        runtimes := runtimes[r := rt.(panicked := true)];
        return;
      }
      runtimes := runtimes[r := rt.(output := rt.output[l.intent := l.interest])];
    }

    /** LocalIntent.Link with nil, from a closed link or a closed intent. */
    method Disconnect(r: Route, intent: nat)
      modifies this`runtimes
      ensures At(r) == Perform(old(At(r)), LinkTable.Disconnect(intent)) && intent !in At(r).rt.output
      ensures forall q | q != r :: At(q) == old(At(q))
    {
      var rt := Runtime(r);
      runtimes := runtimes[r := rt.(output := rt.output - {intent})];
    }

    method Unlink(r: Route) returns (link: Option<Link>)
      modifies this`links
      ensures links == old(links) - {r}
      ensures At(r) == old(At(r)).(link := None) && link == old(At(r)).link
      ensures forall q | q != r :: At(q) == old(At(q))
    {
      if r !in links {
        return None;
      }
      link := Some(links[r]);
      links := links - {r};
    }

    method RemoveIntent(r: Route)
      modifies this
      ensures intents == old(intents) - {r} && links == old(links) - {r}
      ensures interests == old(interests) && runtimes == old(runtimes)
      ensures At(r) == DropIntent(old(At(r)))
      ensures forall q | q != r :: At(q) == old(At(q))
    {
      var _ := Unlink(r);
      intents := intents - {r};
    }

    method RemoveInterest(r: Route)
      modifies this
      ensures interests == old(interests) - {r} && intents == old(intents)
      ensures links == if r in old(interests) then old(links) - {r} else old(links)
      ensures At(r) == DropInterest(old(At(r)))
      ensures forall q | q != r :: At(q) == old(At(q))
    {
      if r in interests {
        var link := Unlink(r);
        interests := interests - {r};
        if link.Some? {
          CloseLink(r, link.value);
        }
      }
    }

    /** Closing a link cancels its context, which starts the two close callbacks. */
    method CloseLink(r: Route, link: Link)
      modifies this`runtimes
      ensures At(r) == old(At(r)).(rt := old(At(r)).rt.(tasks := old(At(r)).rt.tasks + {Sever(link), Forget(link)}))
      ensures forall q | q != r :: At(q) == old(At(q))
    {
      var rt := Runtime(r);
      runtimes := runtimes[r := rt.(tasks := rt.tasks + {Sever(link), Forget(link)})];
    }
  }

  // ---------------------------------------------------------------- runs over all routes

  datatype RouteEvent = RouteEvent(route: Route, event: Event)

  type Table = map<Route, Cell>

  function Lookup(t: Table, r: Route): Cell {
    if r in t then t[r] else EMPTY
  }

  ghost predicate Enables(t: Table, es: seq<RouteEvent>)
    decreases |es|
  {
    es == [] || (Enabled(Lookup(t, es[0].route), es[0].event) && Enables(Step(t, es[0]), es[1..]))
  }

  function Step(t: Table, e: RouteEvent): Table
    requires Enabled(Lookup(t, e.route), e.event)
  {
    t[e.route := LinkTable.Step(Lookup(t, e.route), e.event)]
  }

  ghost function Run(t: Table, es: seq<RouteEvent>): Table
    requires Enables(t, es)
    decreases |es|
  {
    if es == [] then t else Run(Step(t, es[0]), es[1..])
  }

  function Project(es: seq<RouteEvent>, r: Route): seq<Event> {
    if es == [] then []
    else (if es[0].route == r then [es[0].event] else []) + Project(es[1..], r)
  }

  /** What happens on other routes neither helps nor hinders a route. */
  lemma {:induction false} RunProjects(t: Table, es: seq<RouteEvent>, r: Route)
    requires Enables(t, es)
    ensures LinkTable.Enables(Lookup(t, r), Project(es, r))
    ensures Lookup(Run(t, es), r) == LinkTable.Run(Lookup(t, r), Project(es, r))
    decreases |es|
  {
    if es == [] {
    } else {
      RunProjects(Step(t, es[0]), es[1..], r);
      if es[0].route == r {
        RunCons(Lookup(t, r), es[0].event, Project(es[1..], r));
      } else {
        assert Project(es, r) == Project(es[1..], r);
      }
    }
  }

  /** In every interleaving over all routes, link entries join the registered pair of their route. */
  lemma LinkTableAgrees(es: seq<RouteEvent>, r: Route)
    requires Enables(map[], es)
    ensures LinkAgrees(Lookup(Run(map[], es), r))
  {
    RunProjects(map[], es, r);
    LinkAgreesInEveryRun(EMPTY, Project(es, r));
  }

  /** A route that is used in an orderly way is linked exactly when both sides are registered. */
  lemma RouteLinkedIffBothRegistered(es: seq<RouteEvent>, r: Route)
    requires Enables(map[], es)
    requires LinkTable.Enables(EMPTY, Project(es, r)) && OrderlyRun(EMPTY, Project(es, r))
    ensures var c := Lookup(Run(map[], es), r);
            && !c.rt.panicked
            && (c.link.Some? <==> c.intent.Some? && c.interest.Some?)
            && (c.link.Some? && c.intent.value in c.rt.output ==> c.rt.output[c.intent.value] == c.interest.value)
  {
    RunProjects(map[], es, r);
    LinkedIffBothRegistered(Project(es, r));
  }

  /** Over all routes: what a route has registered or open is decided by its own events. */
  lemma RouteStandsIff(es: seq<RouteEvent>, r: Route, side: Side, n: nat, standing: Standing)
    requires Enables(map[], es)
    ensures Stands(Lookup(Run(map[], es), r), side, n, standing) <==> SomeMadeAndKept(Project(es, r), side, n, standing)
  {
    RunProjects(map[], es, r);
    StandsIff(Project(es, r), side, n, standing);
  }

  /** Over all routes: a route is registered on both sides and not linked exactly by its own unlinking steps. */
  lemma RouteUnlinkedIff(es: seq<RouteEvent>, r: Route)
    requires Enables(map[], es)
    ensures var c := Lookup(Run(map[], es), r);
            Paired(c) && c.link.None? <==> LeftUnlinked(Project(es, r))
  {
    RunProjects(map[], es, r);
    UnlinkedIff(Project(es, r));
  }
}
