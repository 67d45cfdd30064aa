/**
 Data of one route from a publisher on one end to a subscriber on the other: through the queue
 of the remote interest, the wire, and the subscriber's queue.
 */
module RemoteFlow {
  import opened Sequences
  import opened Wrappers
  import opened Routes
  import opened RemoteEndpoint
  import opened RemoteLink

  /** Payloads that the publisher accepted, each at most once, in the order in which it did. */
  ghost predicate Genuine(items: seq<Item>, log: seq<nat>) {
    && (forall i, j | 0 <= i < j < |items| :: items[i].pos < items[j].pos)
    && (forall i | 0 <= i < |items| :: items[i].pos < |log| && items[i].payload == log[items[i].pos])
  }

  lemma GenuinePrefix(a: seq<Item>, b: seq<Item>, log: seq<nat>)
    requires Genuine(a + b, log)
    ensures Genuine(a, log)
  {
    assert forall i | 0 <= i < |a| :: a[i] == (a + b)[i];
  }

  lemma GenuineWithout(a: seq<Item>, from: nat, lost: nat, log: seq<nat>)
    requires Genuine(a, log) && from + lost <= |a|
    ensures Genuine(a[..from] + a[from + lost..], log)
  {
  }

  lemma GenuineExtend(a: seq<Item>, log: seq<nat>, payload: nat)
    requires Genuine(a, log)
    ensures Genuine(a + [Item(|log|, payload)], log + [payload])
  {
  }

  function DataOn(ms: seq<Wire>, id: string): seq<Item> {
    if ms == [] then []
    else (if ms[0].Data? && ms[0].text == id then [ms[0].item] else []) + DataOn(ms[1..], id)
  }

  lemma {:induction false} DataOnAppend(ms: seq<Wire>, more: seq<Wire>, id: string)
    ensures DataOn(ms + more, id) == DataOn(ms, id) + DataOn(more, id)
  {
    if ms == [] {
      assert ms + more == more;
    } else {
      assert (ms + more)[1..] == ms[1..] + more;
      DataOnAppend(ms[1..], more, id);
    }
  }

  /** Everything under way, from what the subscriber has read back to what was just accepted. */
  function Pipeline(w: World, id: string): seq<Item> {
    w.there.Received(id) + w.there.Queue(id) + DataOn(w.outgoing, id) + w.here.Queue(id)
  }

  ghost predicate Ids(p: Peer, out: seq<Wire>) {
    && (forall key | key in p.registry :: IsRouteId(key.id))
    && (forall i | 0 <= i < |out| :: IsRouteId(out[i].text))
  }

  /** Only this end publishes the route and only the other end subscribes to it. */
  ghost predicate OneWay(w: World, id: string) {
    && Ids(w.here, w.outgoing) && Ids(w.there, w.incoming)
    && (w.there.closed ==> w.outgoing == [])
    && !w.here.Owns(Key(Interest, id))
    && !w.there.Owns(Key(Intent, id)) && !w.there.Mirrors(Key(Interest, id))
    && (forall i | 0 <= i < |w.outgoing| :: w.outgoing[i] != Advert(Interest, id, true))
    && (forall i | 0 <= i < |w.incoming| :: w.incoming[i].Data? ==> w.incoming[i].text != id)
  }

  predicate Respects(e: Event, id: string) {
    match e
    case Here(DoRegister(key, _, _)) => IsRouteId(key.id) && key != Key(Interest, id)
    case There(DoRegister(key, _, _)) => IsRouteId(key.id) && key != Key(Intent, id)
    case Here(DoCloseStale(key, _)) => IsRouteId(key.id)
    case There(DoCloseStale(key, _)) => IsRouteId(key.id)
    case _ => true
  }

  lemma ParsedIdIsRouteId(text: string)
    requires RouteFromString(text).Success?
    ensures IsRouteId(RouteFromString(text).value.ID())
  {
    if '@' !in text { SplitInTwo(text, '#'); }
  }

  lemma EffectIds(w: World, a: Act)
    requires CanAct(w, a) && Ids(w.here, w.outgoing)
    requires (a.DoRegister? || a.DoCloseStale?) ==> IsRouteId(a.key.id)
    ensures Ids(EffectOf(w, a).peer, w.outgoing + EffectOf(w, a).sent)
  {
    var e := EffectOf(w, a);
    if a.DoReceive? && Parses(w.incoming[0].text) {
      ParsedIdIsRouteId(w.incoming[0].text);
    }
    assert forall key | key in e.peer.registry :: key in w.here.registry || IsRouteId(key.id);
    assert forall i | 0 <= i < |e.sent| :: IsRouteId(e.sent[i].text);
  }

  lemma ClosingKeepsOneWay(w: World, id: string)
    requires OneWay(w, id)
    ensures OneWay(Left(w), id)
    ensures OneWay(Swap(Left(Swap(w))), id)
  {
  }

  lemma HereKeepsOneWay(w: World, a: Act, id: string)
    requires CanAct(w, a) && OneWay(w, id) && Respects(Here(a), id)
    ensures OneWay(ActHere(w, a), id)
  {
    if Closing(w, a) {
      ClosingLeaves(w, a);
      ClosingKeepsOneWay(w, id);
    } else {
      OpenHereKeepsOneWay(w, a, id);
    }
  }

  lemma MessageMakesNoOwner(p: Peer, m: Wire, accepted: bool, key: Key)
    ensures OnMessage(p, m, accepted).peer.Owns(key) ==> p.Owns(key)
  {
  }

  lemma OpenHereKeepsOneWay(w: World, a: Act, id: string)
    requires CanAct(w, a) && OneWay(w, id) && Respects(Here(a), id) && !Closing(w, a)
    ensures OneWay(ActHere(w, a), id)
  {
    var e := EffectOf(w, a);
    EffectIds(w, a);
    if a.DoReceive? {
      MessageMakesNoOwner(w.here, w.incoming[0], a.accepted, Key(Interest, id));
      assert e.sent == [] && w.outgoing + e.sent == w.outgoing;
    } else {
      assert forall i | 0 <= i < |e.sent| :: e.sent[i] != Advert(Interest, id, true);
      OwnStepsKeepRemoteKeys(w, a);
    }
  }

  lemma ThereKeepsOneWay(w: World, a: Act, id: string)
    requires CanAct(Swap(w), a) && OneWay(w, id) && Respects(There(a), id)
    ensures OneWay(Swap(ActHere(Swap(w), a)), id)
  {
    if Closing(Swap(w), a) {
      ClosingLeaves(Swap(w), a);
      ClosingKeepsOneWay(w, id);
    } else {
      OpenThereKeepsOneWay(w, a, id);
    }
  }

  lemma MessageKeepsRole(p: Peer, m: Wire, accepted: bool, id: string)
    requires IsRouteId(m.text) && Decodes(p, m) && m != Advert(Interest, id, true)
    requires !p.Owns(Key(Intent, id)) && !p.Mirrors(Key(Interest, id))
    ensures var p' := OnMessage(p, m, accepted).peer;
            !p'.Owns(Key(Intent, id)) && !p'.Mirrors(Key(Interest, id))
  {
    if Parses(m.text) { IdParsesToItself(m.text); }
  }

  lemma OpenThereKeepsOneWay(w: World, a: Act, id: string)
    requires CanAct(Swap(w), a) && OneWay(w, id) && Respects(There(a), id) && !Closing(Swap(w), a)
    ensures OneWay(Swap(ActHere(Swap(w), a)), id)
  {
    var e := EffectOf(Swap(w), a);
    EffectIds(Swap(w), a);
    if a.DoReceive? {
      MessageKeepsRole(w.there, w.outgoing[0], a.accepted, id);
    } else {
      OwnStepsKeepRemoteKeys(Swap(w), a);
      assert forall i | 0 <= i < |e.sent| :: e.sent[i].Data? ==> e.sent[i].text != id;
    }
  }

  /** The publishing end only adds at the back of its queue, passes its front on, or loses data. */
  predicate Emits(queue: seq<Item>, log: seq<nat>, wire: seq<Item>, queue': seq<Item>, log': seq<nat>) {
    || (wire == [] && queue' == queue && log' == log)
    || (wire == [] && queue' == [] && log' == log)
    || (wire == [] && |log'| == |log| + 1 && log' == log + [log'[|log|]] && queue' == queue + [Item(|log|, log'[|log|])])
    || (queue != [] && queue' == queue[1..] && log' == log && (wire == [] || wire == [queue[0]]))
  }

  lemma EmittingKeepsGenuine(front: seq<Item>, queue: seq<Item>, log: seq<nat>,
                             wire: seq<Item>, queue': seq<Item>, log': seq<nat>)
    requires Genuine(front + queue, log) && Emits(queue, log, wire, queue', log')
    ensures Genuine(front + wire + queue', log')
  {
    var n := |front|;
    assert front + [] == front;
    if log' != log {
      GenuineExtend(front + queue, log, log'[|log|]);
      assert front + queue' == front + queue + [Item(|log|, log'[|log|])];
    } else if wire == [] && queue' == [] {
      GenuinePrefix(front, queue, log);
    } else if queue' != queue {
      assert queue == [queue[0]] + queue[1..];
      if wire == [] {
        GenuineWithout(front + queue, n, 1, log);
        assert (front + queue)[..n] == front && (front + queue)[n + 1..] == queue[1..];
      } else {
        assert front + [queue[0]] + queue[1..] == front + queue;
      }
    }
  }

  predicate Accepts(p: Peer, id: string) {
    Parses(id) && Key(Intent, id) in p.registry && id in p.linked && |p.Queue(id)| < p.size
  }

  predicate Unregisters(p: Peer, m: Wire, id: string) {
    && m == Advert(Interest, id, false) && Parses(id)
    && Key(Interest, id) in p.registry && p.registry[Key(Interest, id)] == Remote(id)
  }

  lemma DataArrives(p: Peer, text: string, item: Item, accepted: bool, id: string)
    requires IsRouteId(text) && Decodes(p, Data(text, item))
    ensures var p' := OnMessage(p, Data(text, item), accepted).peer;
            && p'.Accepted(id) == p.Accepted(id) && p'.Received(id) == p.Received(id)
            && p'.Queue(id) == if text == id && Accepts(p, id) then p.Queue(id) + [item] else p.Queue(id)
  {
    if Parses(text) { IdParsesToItself(text); }
  }

  lemma AdvertArrives(p: Peer, m: Wire, accepted: bool, id: string)
    requires IsRouteId(m.text) && m.Advert?
    ensures var p' := OnMessage(p, m, accepted).peer;
            && p'.Accepted(id) == p.Accepted(id) && p'.Received(id) == p.Received(id)
            && p'.Queue(id) == if Unregisters(p, m, id) then [] else p.Queue(id)
  {
    if Parses(m.text) {
      IdParsesToItself(m.text);
      if m.register {
        assert OnMessage(p, m, accepted) == OnRegister(p, Key(m.kind, m.text), m.text, accepted);
      } else {
        assert OnMessage(p, m, accepted) == OnUnregister(p, Key(m.kind, m.text), m.text);
      }
    }
  }

  /** A message that is decoded can only add its own data to the queue of its own route, or empty a queue. */
  lemma MessageReachesOwnQueue(p: Peer, m: Wire, accepted: bool, id: string)
    requires IsRouteId(m.text) && Decodes(p, m)
    ensures var p' := OnMessage(p, m, accepted).peer;
            && p'.Accepted(id) == p.Accepted(id) && p'.Received(id) == p.Received(id)
            && (m.Data? ==> p'.Queue(id) == if m.text == id && Accepts(p, id) then p.Queue(id) + [m.item] else p.Queue(id))
            && (m.Advert? ==> p'.Queue(id) == if Unregisters(p, m, id) then [] else p.Queue(id))
  {
    if m.Data? {
      DataArrives(p, m.text, m.item, accepted, id);
    } else {
      AdvertArrives(p, m, accepted, id);
    }
  }

  lemma PublisherSends(w: World, a: Act, id: string)
    requires CanAct(w, a) && a.DoSend?
    ensures var e := EffectOf(w, a);
            Emits(w.here.Queue(id), w.here.Accepted(id), [], e.peer.Queue(id), e.peer.Accepted(id))
  {
  }

  lemma AdvertsKeepData(w: World, a: Act, id: string)
    requires CanAct(w, a) && OneWay(w, id) && (a.DoRegister? || a.DoClose? || a.DoCloseStale?)
    ensures var e := EffectOf(w, a);
            DataOn(e.sent, id) == [] && e.peer.Queue(id) == w.here.Queue(id) && e.peer.Accepted(id) == w.here.Accepted(id)
  {
  }

  lemma PublisherReceives(w: World, a: Act, id: string)
    requires CanAct(w, a) && OneWay(w, id) && a.DoReceive? && !Closing(w, a)
    ensures var e := EffectOf(w, a);
            && e.sent == [] && e.peer.Accepted(id) == w.here.Accepted(id)
            && e.peer.Queue(id) == if Unregisters(w.here, w.incoming[0], id) then [] else w.here.Queue(id)
  {
    MessageReachesOwnQueue(w.here, w.incoming[0], a.accepted, id);
  }

  lemma PublisherEmits(w: World, a: Act, id: string)
    requires CanAct(w, a) && OneWay(w, id)
    ensures var e := EffectOf(w, a);
            Emits(w.here.Queue(id), w.here.Accepted(id), DataOn(e.sent, id), e.peer.Queue(id), e.peer.Accepted(id))
  {
    if Closing(w, a) {
      ClosingLeaves(w, a);
      return;
    }
    match a
    case DoReceive(_) => PublisherReceives(w, a, id);
    case DoForward(_, _) => PublisherForwards(w, a, id);
    case DoSend(_, _, _) => PublisherSends(w, a, id);
    case DoConnect(_) =>
    case DoTake(_) =>
    case _ => AdvertsKeepData(w, a, id);
  }

  lemma PublisherForwards(w: World, a: Act, id: string)
    requires CanAct(w, a) && a.DoForward?
    ensures var e, queue := EffectOf(w, a), w.here.Queue(id);
            && (a.id != id ==> DataOn(e.sent, id) == [] && e.peer.Queue(id) == queue)
            && (a.id == id ==> DataOn(e.sent, id) == (if a.writes then [queue[0]] else []) && e.peer.Queue(id) == queue[1..])
  {
  }

  /** When all writes work, the forwarding loop puts the whole queue of its route on the wire, and nothing else. */
  lemma {:induction false} ForwardsDeliver(p: Peer, id: string, writes: seq<bool>, other: string)
    requires p.Mirrors(Key(Interest, id)) && |writes| <= |p.Queue(id)|
    requires forall i | 0 <= i < |writes| :: writes[i]
    ensures DataOn(Forwards(p, [], id, writes).1, other) == if other == id then p.Queue(id)[..|writes|] else []
  {
    if writes == [] {
    } else {
      var n := |writes| - 1;
      ForwardsDeliver(p, id, writes[..n], other);
      ForwardsLast(p, [], id, writes);
      DataOnAppend(Forwards(p, [], id, writes[..n]).1, [Data(id, p.Queue(id)[n])], other);
    }
  }

  lemma HereKeepsGenuine(w: World, a: Act, id: string)
    requires CanAct(w, a) && OneWay(w, id) && Genuine(Pipeline(w, id), w.here.Accepted(id))
    ensures var w' := ActHere(w, a); Genuine(Pipeline(w', id), w'.here.Accepted(id))
  {
    var e, w' := EffectOf(w, a), ActHere(w, a);
    PublisherEmits(w, a, id);
    DataOnAppend(w.outgoing, e.sent, id);
    var got, wire, sent := w.there.Received(id) + w.there.Queue(id), DataOn(w.outgoing, id), DataOn(e.sent, id);
    EmittingKeepsGenuine(got + wire, w.here.Queue(id), w.here.Accepted(id), sent, w'.here.Queue(id), w'.here.Accepted(id));
    Regroup(got, wire, sent);
    if w.there.closed {
      LossKeepsGenuine(got, wire + sent, w'.here.Queue(id), w'.here.Accepted(id));
      assert got + [] == got;
    }
  }

  /** The subscribing end only moves data forward, or loses it. */
  predicate Moves(got: seq<Item>, queue: seq<Item>, wire: seq<Item>, got': seq<Item>, queue': seq<Item>, wire': seq<Item>) {
    || (got' == got && queue' == queue && wire' == wire)
    || (got' == got && queue' == [] && (wire' == wire || wire' == []))
    || (got' == got && wire != [] && wire' == wire[1..] && (queue' == queue || queue' == queue + [wire[0]]))
    || (queue != [] && got' == got + [queue[0]] && queue' == queue[1..] && wire' == wire)
  }

  lemma MovingKeepsGenuine(got: seq<Item>, queue: seq<Item>, wire: seq<Item>,
                           got': seq<Item>, queue': seq<Item>, wire': seq<Item>, rest: seq<Item>, log: seq<nat>)
    requires Genuine(got + queue + wire + rest, log) && Moves(got, queue, wire, got', queue', wire')
    ensures Genuine(got' + queue' + wire' + rest, log)
  {
    if |got'| + |queue'| + |wire'| == |got| + |queue| + |wire| {
      assert got' + queue' + wire' == got + queue + wire;
    } else if wire' == wire {
      assert got + queue + (wire + rest) == got + queue + wire + rest;
      LossKeepsGenuine(got, queue, wire + rest, log);
      assert got' + queue' + wire' + rest == got + (wire + rest);
    } else if queue' == [] && wire' == [] {
      assert got + (queue + wire) + rest == got + queue + wire + rest;
      LossKeepsGenuine(got, queue + wire, rest, log);
      assert got' + queue' + wire' + rest == got + rest;
    } else {
      assert got + queue + wire[..1] + (wire[1..] + rest) == got + queue + wire + rest;
      LossKeepsGenuine(got + queue, wire[..1], wire[1..] + rest, log);
      assert got' + queue' + wire' + rest == got + queue + (wire[1..] + rest);
    }
  }

  lemma LossKeepsGenuine(front: seq<Item>, lost: seq<Item>, rest: seq<Item>, log: seq<nat>)
    requires Genuine(front + lost + rest, log)
    ensures Genuine(front + rest, log)
  {
    var all := front + lost + rest;
    GenuineWithout(all, |front|, |lost|, log);
    assert all[..|front|] == front && all[|front| + |lost|..] == rest;
  }

  lemma SubscriberActs(w: World, a: Act, id: string)
    requires CanAct(Swap(w), a) && OneWay(w, id) && !a.DoReceive? && !a.DoHangUp?
    ensures var p := EffectOf(Swap(w), a).peer;
            && (a == DoTake(id) ==>
                  p.Received(id) == w.there.Received(id) + [w.there.Queue(id)[0]] && p.Queue(id) == w.there.Queue(id)[1..])
            && (a != DoTake(id) ==>
                  && p.Received(id) == w.there.Received(id)
                  && p.Queue(id) == if a.DoClose? && a.key == Key(Interest, id) then [] else w.there.Queue(id))
  {
  }

  lemma SubscriberReceives(w: World, a: Act, id: string)
    requires CanAct(Swap(w), a) && OneWay(w, id) && a.DoReceive? && !Closing(Swap(w), a)
    ensures var p, queue, wire := EffectOf(Swap(w), a).peer, w.there.Queue(id), DataOn(w.outgoing, id);
            && p.Received(id) == w.there.Received(id)
            && (DataOn(w.outgoing[1..], id) == wire ==> p.Queue(id) == queue)
            && (DataOn(w.outgoing[1..], id) != wire ==>
                  && wire != [] && DataOn(w.outgoing[1..], id) == wire[1..]
                  && p.Queue(id) == if Accepts(w.there, id) then queue + [wire[0]] else queue)
  {
    MessageReachesOwnQueue(w.there, w.outgoing[0], a.accepted, id);
  }

  lemma SubscriberMoves(w: World, a: Act, id: string)
    requires CanAct(Swap(w), a) && OneWay(w, id)
    ensures var w' := Swap(ActHere(Swap(w), a));
            Moves(w.there.Received(id), w.there.Queue(id), DataOn(w.outgoing, id),
                  w'.there.Received(id), w'.there.Queue(id), DataOn(w'.outgoing, id))
  {
    if Closing(Swap(w), a) {
      ClosingLeaves(Swap(w), a);
    } else if a.DoReceive? {
      SubscriberReceives(w, a, id);
    } else {
      SubscriberActs(w, a, id);
    }
  }

  lemma ThereKeepsGenuine(w: World, a: Act, id: string)
    requires CanAct(Swap(w), a) && OneWay(w, id) && Genuine(Pipeline(w, id), w.here.Accepted(id))
    ensures var w' := Swap(ActHere(Swap(w), a)); Genuine(Pipeline(w', id), w'.here.Accepted(id))
  {
    var w' := Swap(ActHere(Swap(w), a));
    SubscriberMoves(w, a, id);
    MovingKeepsGenuine(w.there.Received(id), w.there.Queue(id), DataOn(w.outgoing, id),
                       w'.there.Received(id), w'.there.Queue(id), DataOn(w'.outgoing, id),
                       w.here.Queue(id), w.here.Accepted(id));
  }

  ghost predicate RespectsAll(es: seq<Event>, id: string) {
    forall i | 0 <= i < |es| :: Respects(es[i], id)
  }

  lemma {:induction false} PipelineStaysGenuine(w: World, es: seq<Event>, id: string)
    requires OneWay(w, id) && Genuine(Pipeline(w, id), w.here.Accepted(id))
    requires Enables(w, es) && RespectsAll(es, id)
    ensures var w' := Run(w, es); OneWay(w', id) && Genuine(Pipeline(w', id), w'.here.Accepted(id))
    decreases |es|
  {
    if es == [] {
    } else {
      match es[0] {
        case Here(a) => HereKeepsOneWay(w, a, id); HereKeepsGenuine(w, a, id);
        case There(a) => ThereKeepsOneWay(w, a, id); ThereKeepsGenuine(w, a, id);
      }
      PipelineStaysGenuine(Step(w, es[0]), es[1..], id);
    }
  }

  /**
   What reaches the subscriber's queue, in every interleaving: payloads the publisher's intent
   accepted, in that order, none twice, whatever was lost on the way.
   */
  lemma SubscriberSeesSubsequence(size: nat, es: seq<Event>, id: string)
    requires Enables(Start(size), es) && RespectsAll(es, id)
    ensures var w := Run(Start(size), es);
            Genuine(w.there.Received(id) + w.there.Queue(id), w.here.Accepted(id))
  {
    PipelineStaysGenuine(Start(size), es, id);
    var w := Run(Start(size), es);
    var reached, log := w.there.Received(id) + w.there.Queue(id), w.here.Accepted(id);
    GenuinePrefix(reached + DataOn(w.outgoing, id), w.here.Queue(id), log);
    GenuinePrefix(reached, DataOn(w.outgoing, id), log);
  }

  // ---------------------------------------------------------------- nothing else is lost

  /**
   How many payloads of the route a step loses: writes that fail or reach a closed end, refused
   messages, queues that are closed, and, where an end closes, its queue and what was on the way to it.
   */
  function Lost(w: World, e: Event, id: string): nat
    requires Enabled(w, e)
  {
    match e
    case Here(a) => LostHere(w, a, id) + if w.there.closed then |DataOn(EffectOf(w, a).sent, id)| else 0
    case There(a) => LostThere(w, a, id)
  }

  function LostHere(w: World, a: Act, id: string): nat
    requires CanAct(w, a)
  {
    if Closing(w, a) then |w.here.Queue(id)|
    else match a
    case DoForward(r, writes) => if r == id && !writes then 1 else 0
    case DoReceive(_) => if Unregisters(w.here, w.incoming[0], id) then |w.here.Queue(id)| else 0
    case _ => 0
  }

  function LostThere(w: World, a: Act, id: string): nat
    requires CanAct(Swap(w), a)
  {
    if Closing(Swap(w), a) then |w.there.Queue(id)| + |DataOn(w.outgoing, id)|
    else match a
    case DoReceive(_) =>
      if w.outgoing[0].Data? && w.outgoing[0].text == id && !Accepts(w.there, id) then 1 else 0
    case DoClose(key, _) => if key == Key(Interest, id) then |w.there.Queue(id)| else 0
    case _ => 0
  }

  function TotalLost(w: World, es: seq<Event>, id: string): nat
    requires Enables(w, es)
    decreases |es|
  {
    if es == [] then 0 else Lost(w, es[0], id) + TotalLost(Step(w, es[0]), es[1..], id)
  }

  lemma PublisherCounts(w: World, a: Act, id: string)
    requires CanAct(w, a) && OneWay(w, id)
    ensures var e := EffectOf(w, a);
            |DataOn(e.sent, id)| + |e.peer.Queue(id)| + LostHere(w, a, id) + |w.here.Accepted(id)|
            == |w.here.Queue(id)| + |e.peer.Accepted(id)|
  {
    if Closing(w, a) {
      ClosingLeaves(w, a);
      return;
    }
    match a
    case DoReceive(_) => PublisherReceives(w, a, id);
    case DoForward(_, _) => PublisherForwards(w, a, id);
    case DoSend(_, _, _) => PublisherSends(w, a, id);
    case DoConnect(_) =>
    case DoTake(_) =>
    case _ => AdvertsKeepData(w, a, id);
  }

  lemma SubscriberCounts(w: World, a: Act, id: string)
    requires CanAct(Swap(w), a) && OneWay(w, id)
    ensures var w' := Swap(ActHere(Swap(w), a));
            |w'.there.Received(id)| + |w'.there.Queue(id)| + |DataOn(w'.outgoing, id)| + LostThere(w, a, id)
            == |w.there.Received(id)| + |w.there.Queue(id)| + |DataOn(w.outgoing, id)|
  {
    if Closing(Swap(w), a) {
      ClosingLeaves(Swap(w), a);
    } else if a.DoReceive? {
      SubscriberReceives(w, a, id);
    } else {
      SubscriberActs(w, a, id);
    }
  }

  lemma StepCounts(w: World, e: Event, id: string)
    requires Enabled(w, e) && OneWay(w, id)
    ensures |Pipeline(Step(w, e), id)| + Lost(w, e, id) + |w.here.Accepted(id)|
         == |Pipeline(w, id)| + |Step(w, e).here.Accepted(id)|
  {
    match e
    case Here(a) =>
      PublisherCounts(w, a, id);
      DataOnAppend(w.outgoing, EffectOf(w, a).sent, id);
    case There(a) =>
      SubscriberCounts(w, a, id);
  }

  lemma StepKeepsOneWay(w: World, e: Event, id: string)
    requires Enabled(w, e) && OneWay(w, id) && Respects(e, id)
    ensures OneWay(Step(w, e), id)
  {
    match e
    case Here(a) => HereKeepsOneWay(w, a, id);
    case There(a) => ThereKeepsOneWay(w, a, id);
  }

  /** Every accepted payload is in the pipeline or was lost by one of those steps. */
  lemma {:induction false} AcceptedIsAccountedFor(w: World, es: seq<Event>, id: string)
    requires OneWay(w, id) && Enables(w, es) && RespectsAll(es, id)
    ensures var w' := Run(w, es);
            |Pipeline(w', id)| + TotalLost(w, es, id) + |w.here.Accepted(id)|
            == |Pipeline(w, id)| + |w'.here.Accepted(id)|
    decreases |es|
  {
    if es == [] {
    } else {
      StepCounts(w, es[0], id);
      StepKeepsOneWay(w, es[0], id);
      AcceptedIsAccountedFor(Step(w, es[0]), es[1..], id);
    }
  }
}
