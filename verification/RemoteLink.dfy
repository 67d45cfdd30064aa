/**
 Two endpoints joined by a FIFO link in each direction, in any interleaving of users,
 goroutines and message delivery.
 */
module RemoteLink {
  import opened Wrappers
  import opened Routes
  import opened RemoteEndpoint

  /** `here` acts, `there` is the other end. */
  datatype World = World(here: Peer, there: Peer, incoming: seq<Wire>, outgoing: seq<Wire>)

  function Swap(w: World): World {
    World(w.there, w.here, w.outgoing, w.incoming)
  }

  datatype Act =
    | DoRegister(key: Key, writes: bool, accepts: bool)
    | DoClose(key: Key, writes: bool)
    | DoCloseStale(key: Key, writes: bool)
    | DoSend(id: string, payload: nat, typed: bool)
    | DoTake(id: string)
    | DoConnect(id: string)
    | DoForward(id: string, writes: bool)
    | DoReceive(accepted: bool)
    | DoHangUp                            // notices that the other end has closed

  predicate CanAct(w: World, a: Act) {
    !w.here.closed &&
    match a
    case DoRegister(_, _, _) => true
    case DoClose(key, _) => w.here.Owns(key)
    case DoCloseStale(_, _) => true
    case DoSend(id, _, _) => w.here.Owns(Key(Intent, id))
    case DoTake(id) => w.here.Owns(Key(Interest, id)) && w.here.Queue(id) != []
    case DoConnect(id) => Key(Intent, id) in w.here.registry && Key(Interest, id) in w.here.registry
    case DoForward(id, _) => w.here.Mirrors(Key(Interest, id)) && w.here.Queue(id) != []
    case DoReceive(_) => w.incoming != []
    case DoHangUp => w.there.closed
  }

  function EffectOf(w: World, a: Act): Effect
    requires CanAct(w, a)
  {
    match a
    case DoRegister(key, writes, accepts) => Register(w.here, key, writes, accepts)
    case DoClose(key, writes) => Close(w.here, key, writes)
    case DoCloseStale(key, writes) => CloseStale(w.here, key, writes)
    case DoSend(id, payload, typed) => Send(w.here, id, payload, typed)
    case DoTake(id) => Take(w.here, id)
    case DoConnect(id) => Connect(w.here, id)
    case DoForward(id, writes) => Forward(w.here, id, writes)
    case DoReceive(accepted) => OnMessage(w.here, w.incoming[0], accepted)
    case DoHangUp => Effect(Ended(w.here), [], Done)
  }

  /** What is on the way to an end that has closed is lost. */
  function ActHere(w: World, a: Act): World
    requires CanAct(w, a)
  {
    var e := EffectOf(w, a);
    World(e.peer, w.there,
          if e.peer.closed then [] else if a.DoReceive? then w.incoming[1..] else w.incoming,
          if w.there.closed then [] else w.outgoing + e.sent)
  }

  datatype Event = Here(act: Act) | There(act: Act)

  predicate Enabled(w: World, e: Event) {
    match e
    case Here(a) => CanAct(w, a)
    case There(a) => CanAct(Swap(w), a)
  }

  function Step(w: World, e: Event): World
    requires Enabled(w, e)
  {
    match e
    case Here(a) => ActHere(w, a)
    case There(a) => Swap(ActHere(Swap(w), a))
  }

  ghost predicate Enables(w: World, es: seq<Event>)
    decreases |es|
  {
    es == [] || (Enabled(w, es[0]) && Enables(Step(w, es[0]), es[1..]))
  }

  ghost function Run(w: World, es: seq<Event>): World
    requires Enables(w, es)
    decreases |es|
  {
    if es == [] then w else Run(Step(w, es[0]), es[1..])
  }

  function Fresh(size: nat): Peer {
    Peer(size, map[], map[], {}, map[], map[], false)
  }

  function Start(size: nat): World {
    World(Fresh(size), Fresh(size), [], [])
  }

  // ---------------------------------------------------------------- registration mirror

  function LocalKeys(p: Peer): set<Key> {
    set key | key in p.registry && p.registry[key].Local?
  }

  function RemoteKeys(p: Peer): set<Key> {
    set key | key in p.registry && p.registry[key].Remote?
  }

  /** What a message will do to the receiver's remote keys, if nothing else interferes. */
  function Apply(keys: set<Key>, m: Wire): set<Key> {
    if m.Data? || RouteFromString(m.text).Failure? then keys
    else if m.register then keys + {Key(m.kind, m.text)} else keys - {Key(m.kind, m.text)}
  }

  function Fold(keys: set<Key>, ms: seq<Wire>): set<Key>
    decreases |ms|
  {
    if ms == [] then keys else Fold(Apply(keys, ms[0]), ms[1..])
  }

  lemma {:induction false} FoldAppend(keys: set<Key>, ms: seq<Wire>, m: Wire)
    ensures Fold(keys, ms + [m]) == Apply(Fold(keys, ms), m)
    decreases |ms|
  {
    if ms == [] {
      assert ms + [m] == [m] && [m][1..] == [];
    } else {
      assert (ms + [m])[1..] == ms[1..] + [m];
      FoldAppend(Apply(keys, ms[0]), ms[1..], m);
    }
  }

  lemma FoldData(keys: set<Key>, ms: seq<Wire>, more: seq<Wire>)
    requires |more| <= 1 && forall i | 0 <= i < |more| :: more[i].Data?
    ensures Fold(keys, ms + more) == Fold(keys, ms)
  {
    if more == [] {
      assert ms + more == ms;
    } else {
      assert more == [more[0]];
      FoldAppend(keys, ms, more[0]);
    }
  }

  /**
   The part of the discipline that concerns the keys of the acting end: it alone registers
   them, under ids, and whatever is said or stored about them came from it.
   */
  ghost predicate Disciplined(w: World, mine: set<Key>) {
    && (forall key | w.here.Owns(key) :: key in mine && IsRouteId(key.id))
    && (forall key | w.there.Mirrors(key) :: key in mine && Parses(key.id) && w.there.registry[key] == Remote(key.id))
    && (forall key | w.there.Owns(key) :: key !in mine)
    && (forall i | 0 <= i < |w.outgoing| && w.outgoing[i].Advert? ::
          Key(w.outgoing[i].kind, w.outgoing[i].text) in mine && IsRouteId(w.outgoing[i].text))
  }

  /** Both ends are open, and the messages in flight turn the receiver's remote keys into the sender's local keys. */
  ghost predicate Mirrored(w: World) {
    !w.here.closed && !w.there.closed && Fold(RemoteKeys(w.there), w.outgoing) == LocalKeys(w.here)
  }

  /** The acting end only registers, or closes objects of, its own keys. */
  predicate Own(a: Act, mine: set<Key>) {
    match a
    case DoRegister(key, _, _) => key in mine && IsRouteId(key.id)
    case DoCloseStale(key, _) => key in mine && IsRouteId(key.id)
    case _ => true
  }

  predicate Parses(id: string) {
    RouteFromString(id).Success?
  }

  /** What the caller can check beforehand: the step will be told to the other end truthfully. */
  predicate Truthful(p: Peer, a: Act) {
    match a
    case DoRegister(key, writes, accepts) => key in p.registry || !writes || (accepts <==> Parses(key.id))
    case DoClose(key, writes) => writes
    case DoCloseStale(key, writes) => writes ==> !p.Owns(key)
    case _ => true
  }

  lemma FoldIsPlain(keys: set<Key>, ms: seq<Wire>, key: Key)
    requires key in Fold(keys, ms) && (key in keys ==> Parses(key.id))
    ensures Parses(key.id)
    decreases |ms|
  {
    if ms != [] {
      FoldIsPlain(Apply(keys, ms[0]), ms[1..], key);
    }
  }

  /** The message that is received cannot be decoded, which ends the receiving end. */
  predicate Ends(w: World, a: Act)
    requires CanAct(w, a)
  {
    a.DoReceive? && !Decodes(w.here, w.incoming[0])
  }

  predicate Closing(w: World, a: Act)
    requires CanAct(w, a)
  {
    Ends(w, a) || a.DoHangUp?
  }

  /** Steps that neither change what an end owns nor advertise anything. */
  predicate Silent(w: World, a: Act)
    requires CanAct(w, a)
  {
    !a.DoRegister? && !a.DoClose? && !a.DoCloseStale? && !Closing(w, a)
  }

  lemma SilentKeepsKeys(w: World, a: Act)
    requires CanAct(w, a) && Silent(w, a)
    ensures forall key :: EffectOf(w, a).peer.Owns(key) <==> w.here.Owns(key)
    ensures forall i | 0 <= i < |EffectOf(w, a).sent| :: EffectOf(w, a).sent[i].Data?
    ensures |EffectOf(w, a).sent| <= 1 && !EffectOf(w, a).peer.closed
  {
  }

  /** Sending data while owning the same keys. */
  lemma DataKeepsMirror(w: World, p: Peer, incoming: seq<Wire>, sent: seq<Wire>, mine: set<Key>)
    requires Disciplined(w, mine) && Mirrored(w) && !p.closed
    requires forall key :: p.Owns(key) <==> w.here.Owns(key)
    requires |sent| <= 1 && forall i | 0 <= i < |sent| :: sent[i].Data?
    ensures var w' := World(p, w.there, incoming, w.outgoing + sent); Disciplined(w', mine) && Mirrored(w')
  {
    assert forall key :: key in LocalKeys(p) <==> p.Owns(key);
    assert forall key :: key in LocalKeys(w.here) <==> w.here.Owns(key);
    assert LocalKeys(p) == LocalKeys(w.here);
    FoldData(RemoteKeys(w.there), w.outgoing, sent);
  }

  lemma SilentKeepsMirror(w: World, a: Act, mine: set<Key>)
    requires CanAct(w, a) && Disciplined(w, mine) && Mirrored(w) && Silent(w, a)
    ensures Disciplined(ActHere(w, a), mine) && Mirrored(ActHere(w, a))
  {
    SilentKeepsKeys(w, a);
    DataKeepsMirror(w, EffectOf(w, a).peer, ActHere(w, a).incoming, EffectOf(w, a).sent, mine);
  }

  lemma AdvertsKeepDiscipline(w: World, a: Act, mine: set<Key>)
    requires CanAct(w, a) && Disciplined(w, mine) && Own(a, mine) && !Silent(w, a)
    ensures Disciplined(ActHere(w, a), mine)
  {
  }

  /** Sending end: the mirror survives exactly the truthful steps that do not end it. */
  lemma SenderMirrorIff(w: World, a: Act, mine: set<Key>)
    requires CanAct(w, a) && Disciplined(w, mine) && Mirrored(w) && Own(a, mine)
    ensures Disciplined(ActHere(w, a), mine)
    ensures Mirrored(ActHere(w, a)) <==> Truthful(w.here, a) && !Ends(w, a)
  {
    if Silent(w, a) {
      SilentKeepsMirror(w, a, mine);
      return;
    }
    AdvertsKeepDiscipline(w, a, mine);
    if Ends(w, a) {
      return;
    }
    var e := EffectOf(w, a);
    var local := LocalKeys(w.here);
    if a.key in local {
      FoldIsPlain(RemoteKeys(w.there), w.outgoing, a.key);
    }
    assert w.outgoing + [] == w.outgoing;
    if e.sent != [] {
      assert e.sent == [e.sent[0]];
      FoldAppend(RemoteKeys(w.there), w.outgoing, e.sent[0]);
    }
    assert LocalKeys(e.peer) ==
      if a.DoClose? then local - {a.key} else if a.DoRegister? && e.status.Done? then local + {a.key} else local;
  }

  /** A message that decides whether the receiver has the key. */
  predicate Settles(m: Wire, key: Key) {
    m.Advert? && Parses(m.text) && Key(m.kind, m.text) == key
  }

  predicate Mentions(ms: seq<Wire>, key: Key) {
    exists i :: 0 <= i < |ms| && Settles(ms[i], key)
  }

  /** The receiver's callback refuses the object of a new registration. */
  predicate Refuses(p: Peer, m: Wire, accepted: bool) {
    !accepted && m.Advert? && m.register && Parses(m.text) && Key(m.kind, m.text) !in p.registry
  }

  /** A refusal does no harm only where a later message on the link settles the key anyway. */
  predicate Admits(p: Peer, ms: seq<Wire>, accepted: bool)
    requires ms != []
  {
    Refuses(p, ms[0], accepted) ==> Mentions(ms[1..], Key(ms[0].kind, ms[0].text))
  }

  predicate Welcomes(w: World, a: Act)
    requires CanAct(w, a)
  {
    a.DoReceive? ==> Decodes(w.here, w.incoming[0]) && Admits(w.here, w.incoming, a.accepted)
  }

  lemma MentionsFirst(ms: seq<Wire>, key: Key)
    requires ms != []
    ensures Mentions(ms, key) <==> Settles(ms[0], key) || Mentions(ms[1..], key)
  {
    if Mentions(ms[1..], key) {
      var i :| 0 <= i < |ms| - 1 && Settles(ms[1..][i], key);
      assert Settles(ms[i + 1], key);
    }
    if Mentions(ms, key) {
      var i :| 0 <= i < |ms| && Settles(ms[i], key);
      if i > 0 { assert Settles(ms[1..][i - 1], key); }
    }
  }

  /** A key makes a difference to the fold exactly when no message settles it. */
  lemma {:induction false} FoldWithKey(keys: set<Key>, ms: seq<Wire>, key: Key)
    requires key !in keys
    ensures Mentions(ms, key) ==> Fold(keys + {key}, ms) == Fold(keys, ms)
    ensures !Mentions(ms, key) ==> key in Fold(keys + {key}, ms) && key !in Fold(keys, ms)
    decreases |ms|
  {
    if ms == [] {
    } else {
      var m := ms[0];
      MentionsFirst(ms, key);
      if Settles(m, key) {
        assert Apply(keys + {key}, m) == Apply(keys, m);
      } else {
        assert Apply(keys + {key}, m) == Apply(keys, m) + {key};
        FoldWithKey(Apply(keys, m), ms[1..], key);
      }
    }
  }

  lemma DeliveryKeepsTexts(p: Peer, m: Wire, accepted: bool, mine: set<Key>)
    requires forall key | p.Mirrors(key) :: key in mine && Parses(key.id) && p.registry[key] == Remote(key.id)
    requires m.Advert? ==> Key(m.kind, m.text) in mine && IsRouteId(m.text)
    ensures var p' := OnMessage(p, m, accepted).peer;
            forall key | p'.Mirrors(key) :: key in mine && Parses(key.id) && p'.registry[key] == Remote(key.id)
  {
    if m.Advert? && Parses(m.text) { IdParsesToItself(m.text); }
  }

  lemma ReceiverKeepsDiscipline(w: World, a: Act, mine: set<Key>)
    requires CanAct(Swap(w), a) && Disciplined(w, mine)
    requires a.DoRegister? ==> a.key !in mine
    ensures Disciplined(Swap(ActHere(Swap(w), a)), mine)
  {
    if Closing(Swap(w), a) {
    } else if a.DoReceive? {
      DeliveryApplies(w.there, w.outgoing[0], a.accepted, mine);
      DeliveryKeepsTexts(w.there, w.outgoing[0], a.accepted, mine);
      LocalKeysAreOwned(w.there, EffectOf(Swap(w), a).peer);
    } else {
      OwnStepsKeepRemoteKeys(Swap(w), a);
    }
  }

  lemma LocalKeysAreOwned(p: Peer, p': Peer)
    requires LocalKeys(p) == LocalKeys(p')
    ensures forall key :: p.Owns(key) <==> p'.Owns(key)
  {
    forall key ensures p.Owns(key) <==> p'.Owns(key) {
      assert p.Owns(key) <==> key in LocalKeys(p);
      assert p'.Owns(key) <==> key in LocalKeys(p');
    }
  }

  lemma ReceivedMirror(w: World, a: Act, mine: set<Key>)
    requires CanAct(Swap(w), a) && Disciplined(w, mine) && Mirrored(w) && a.DoReceive? && !Ends(Swap(w), a)
    ensures var w' := Swap(ActHere(Swap(w), a)); Mirrored(w') <==> Welcomes(Swap(w), a)
  {
    var m := w.outgoing[0];
    DeliveryApplies(w.there, m, a.accepted, mine);
    if Refuses(w.there, m, a.accepted) {
      FoldWithKey(RemoteKeys(w.there), w.outgoing[1..], Key(m.kind, m.text));
    }
  }

  /** Receiving end of the same keys: only refusing a registration or failing to decode can break the mirror. */
  lemma ReceiverMirrorIff(w: World, a: Act, mine: set<Key>)
    requires CanAct(Swap(w), a) && Disciplined(w, mine) && Mirrored(w)
    requires a.DoRegister? ==> a.key !in mine
    ensures var w' := Swap(ActHere(Swap(w), a));
            Disciplined(w', mine) && (Mirrored(w') <==> Welcomes(Swap(w), a))
  {
    ReceiverKeepsDiscipline(w, a, mine);
    if Closing(Swap(w), a) {
      ClosingLeaves(Swap(w), a);
    } else if a.DoReceive? {
      ReceivedMirror(w, a, mine);
    } else {
      OwnStepsKeepRemoteKeys(Swap(w), a);
      assert RemoteKeys(EffectOf(Swap(w), a).peer) == RemoteKeys(w.there);
    }
  }

  lemma OwnStepsKeepRemoteKeys(w: World, a: Act)
    requires CanAct(w, a) && !a.DoReceive? && !a.DoHangUp?
    ensures forall key :: EffectOf(w, a).peer.Mirrors(key) <==> w.here.Mirrors(key)
    ensures forall key | w.here.Mirrors(key) :: EffectOf(w, a).peer.registry[key] == w.here.registry[key]
    ensures forall key | EffectOf(w, a).peer.Owns(key) :: w.here.Owns(key) || (a.DoRegister? && key == a.key)
  {
  }

  lemma DeliveryApplies(p: Peer, m: Wire, accepted: bool, mine: set<Key>)
    requires Decodes(p, m)
    requires forall key | p.Mirrors(key) :: p.registry[key] == Remote(key.id)
    requires forall key | p.Owns(key) :: key !in mine
    requires m.Advert? ==> Key(m.kind, m.text) in mine && IsRouteId(m.text)
    ensures RemoteKeys(OnMessage(p, m, accepted).peer)
         == if Refuses(p, m, accepted) then RemoteKeys(p) else Apply(RemoteKeys(p), m)
    ensures LocalKeys(OnMessage(p, m, accepted).peer) == LocalKeys(p)
  {
    var p' := OnMessage(p, m, accepted).peer;
    if m.Advert? && Parses(m.text) {
      IdParsesToItself(m.text);
      var key := Key(m.kind, m.text);
      assert !p.Owns(key);
      assert p.Mirrors(key) ==> p.registry[key] == Remote(key.id);
    }
  }

  /** Each end only ever registers its own keys, tells every step truthfully, and takes registrations. */
  ghost predicate FaithfulRun(w: World, es: seq<Event>, mine: set<Key>, theirs: set<Key>)
    requires Enables(w, es)
    decreases |es|
  {
    es == [] ||
    (Faithful(w, es[0], mine, theirs) && FaithfulRun(Step(w, es[0]), es[1..], mine, theirs))
  }

  predicate Faithful(w: World, e: Event, mine: set<Key>, theirs: set<Key>)
    requires Enabled(w, e)
  {
    match e
    case Here(a) => Own(a, mine) && Truthful(w.here, a) && Welcomes(w, a)
    case There(a) => Own(a, theirs) && Truthful(w.there, a) && Welcomes(Swap(w), a)
  }

  ghost predicate Mirror(w: World, mine: set<Key>, theirs: set<Key>) {
    && Disciplined(w, mine) && Disciplined(Swap(w), theirs)
    && Mirrored(w) && Mirrored(Swap(w))
  }

  lemma HereKeepsMirror(w: World, a: Act, mine: set<Key>, theirs: set<Key>)
    requires mine !! theirs && Mirror(w, mine, theirs) && CanAct(w, a)
    requires Own(a, mine) && Truthful(w.here, a) && Welcomes(w, a)
    ensures Mirror(ActHere(w, a), mine, theirs)
  {
    assert Swap(Swap(w)) == w;
    ReceiverMirrorIff(Swap(w), a, theirs);
    SenderMirrorIff(w, a, mine);
  }

  lemma StepKeepsMirror(w: World, e: Event, mine: set<Key>, theirs: set<Key>)
    requires mine !! theirs && Mirror(w, mine, theirs) && Enabled(w, e) && Faithful(w, e, mine, theirs)
    ensures Mirror(Step(w, e), mine, theirs)
  {
    match e
    case Here(a) => HereKeepsMirror(w, a, mine, theirs);
    case There(a) =>
      assert Swap(Swap(w)) == w;
      HereKeepsMirror(Swap(w), a, theirs, mine);
  }

  /** In every faithful run the messages in flight make up the difference, both ways. */
  lemma {:induction false} MirrorInEveryRun(w: World, es: seq<Event>, mine: set<Key>, theirs: set<Key>)
    requires mine !! theirs && Mirror(w, mine, theirs) && Enables(w, es) && FaithfulRun(w, es, mine, theirs)
    ensures Mirror(Run(w, es), mine, theirs)
    decreases |es|
  {
    if es == [] {
    } else {
      StepKeepsMirror(w, es[0], mine, theirs);
      MirrorInEveryRun(Step(w, es[0]), es[1..], mine, theirs);
    }
  }

  /** So whenever a link is empty, the receiver's remote keys are the sender's local keys. */
  lemma DrainedLinkAgrees(size: nat, es: seq<Event>, mine: set<Key>, theirs: set<Key>)
    requires mine !! theirs && Enables(Start(size), es) && FaithfulRun(Start(size), es, mine, theirs)
    ensures var w := Run(Start(size), es);
            && (w.outgoing == [] ==> RemoteKeys(w.there) == LocalKeys(w.here))
            && (w.incoming == [] ==> RemoteKeys(w.here) == LocalKeys(w.there))
  {
    assert RemoteKeys(Fresh(size)) == {} == LocalKeys(Fresh(size));
    MirrorInEveryRun(Start(size), es, mine, theirs);
  }

  // ---------------------------------------------------------------- queues stay within their size

  ghost predicate Bounded(p: Peer) {
    forall id :: |p.Queue(id)| <= p.size
  }

  lemma ActKeepsBound(w: World, a: Act)
    requires CanAct(w, a) && Bounded(w.here)
    ensures Bounded(ActHere(w, a).here) && ActHere(w, a).here.size == w.here.size
  {
    var e := EffectOf(w, a);
    forall id ensures |e.peer.Queue(id)| <= |w.here.Queue(id)| || |e.peer.Queue(id)| <= w.here.size {
    }
  }

  /** Whatever is sent, forwarded and received, no queue ever holds more than its size. */
  lemma {:induction false} QueuesStayBounded(w: World, es: seq<Event>)
    requires Bounded(w.here) && Bounded(w.there) && Enables(w, es)
    ensures Bounded(Run(w, es).here) && Bounded(Run(w, es).there)
    ensures Run(w, es).here.size == w.here.size && Run(w, es).there.size == w.there.size
    decreases |es|
  {
    if es == [] {
    } else {
      match es[0] {
        case Here(a) => ActKeepsBound(w, a);
        case There(a) => ActKeepsBound(Swap(w), a);
      }
      QueuesStayBounded(Step(w, es[0]), es[1..]);
    }
  }

  // ---------------------------------------------------------------- when an end closes

  /** Somewhere in the run an end that is still open receives data of a route that it has not subscribed to. */
  ghost predicate ReceivesUndecodable(w: World, es: seq<Event>)
    requires Enables(w, es)
    decreases |es|
  {
    es != [] && (EndsOne(w, es[0]) || ReceivesUndecodable(Step(w, es[0]), es[1..]))
  }

  /** What a step that closes the acting end leaves. */
  function Left(w: World): World {
    World(Ended(w.here), w.there, [], if w.there.closed then [] else w.outgoing)
  }

  lemma ClosingLeaves(w: World, a: Act)
    requires CanAct(w, a) && Closing(w, a)
    ensures ActHere(w, a) == Left(w)
  {
    assert w.outgoing + [] == w.outgoing;
  }

  lemma ActClosesIff(w: World, a: Act)
    requires CanAct(w, a)
    ensures ActHere(w, a).here.closed <==> Closing(w, a)
    ensures ActHere(w, a).there == w.there
  {
    match a
    case DoReceive(accepted) =>
    case _ =>
  }

  predicate EndsOne(w: World, e: Event)
    requires Enabled(w, e)
  {
    match e
    case Here(a) => Ends(w, a)
    case There(a) => Ends(Swap(w), a)
  }

  lemma StepClosesIff(w: World, e: Event)
    requires Enabled(w, e)
    ensures Step(w, e).here.closed || Step(w, e).there.closed <==> w.here.closed || w.there.closed || EndsOne(w, e)
  {
    match e
    case Here(a) => ActClosesIff(w, a);
    case There(a) => ActClosesIff(Swap(w), a);
  }

  /** In every run an end has closed exactly when one has received data that it could not decode. */
  lemma {:induction false} ClosesIff(w: World, es: seq<Event>)
    requires Enables(w, es)
    ensures Run(w, es).here.closed || Run(w, es).there.closed <==>
              w.here.closed || w.there.closed || ReceivesUndecodable(w, es)
    decreases |es|
  {
    if es == [] {
    } else {
      StepClosesIff(w, es[0]);
      ClosesIff(Step(w, es[0]), es[1..]);
    }
  }

  /**
   A subscription is closed, truthfully, while a payload for it is on the way: the payload ends the
   subscriber's whole end.
   */
  lemma LatePayloadEndsEnd(w: World, id: string, item: Item, accepted: bool)
    requires !w.there.closed && !w.here.closed && w.there.Owns(Key(Interest, id)) && w.outgoing == [Data(id, item)]
    ensures var es := Leaving(id, accepted);
            && Enables(w, es) && Truthful(w.there, es[0].act)
            && Run(w, es).there.closed && Run(w, es).there.registry == map[] && !Run(w, es).here.closed
  {
    var close, receive := There(DoClose(Key(Interest, id), true)), There(DoReceive(accepted));
    var w1 := Step(w, close);
    assert w1.outgoing == w.outgoing && !w1.there.Owns(Key(Interest, id));
    assert [close, receive][1..] == [receive] && [receive][1..] == [];
    assert Run(w1, [receive]) == Step(w1, receive) && Enables(w1, [receive]);
  }

  ghost predicate Leads(w: World, e: Event, w': World) {
    Enabled(w, e) && Step(w, e) == w'
  }

  lemma FirstThen(w: World, e: Event, w': World, rest: seq<Event>)
    requires Leads(w, e, w') && Enables(w', rest)
    ensures Enables(w, [e] + rest) && Run(w, [e] + rest) == Run(w', rest)
  {
    assert ([e] + rest)[1..] == rest;
  }

  lemma ThreeThen(ws: seq<World>, es: seq<Event>, rest: seq<Event>)
    requires |es| == 3 && |ws| == 4 && Leads(ws[0], es[0], ws[1]) && Leads(ws[1], es[1], ws[2]) && Leads(ws[2], es[2], ws[3])
    requires Enables(ws[3], rest)
    ensures Enables(ws[0], es + rest) && Run(ws[0], es + rest) == Run(ws[3], rest)
  {
    FirstThen(ws[2], es[2], ws[3], rest);
    FirstThen(ws[1], es[1], ws[2], [es[2]] + rest);
    FirstThen(ws[0], es[0], ws[1], [es[1]] + ([es[2]] + rest));
    assert [es[0]] + ([es[1]] + ([es[2]] + rest)) == es + rest;
  }

  lemma FourThen(ws: seq<World>, es: seq<Event>, rest: seq<Event>)
    requires |es| == 4 && |ws| == 5 && Leads(ws[0], es[0], ws[1]) && Leads(ws[1], es[1], ws[2])
    requires Leads(ws[2], es[2], ws[3]) && Leads(ws[3], es[3], ws[4]) && Enables(ws[4], rest)
    ensures Enables(ws[0], es + rest) && Run(ws[0], es + rest) == Run(ws[4], rest)
  {
    ThreeThen(ws[1..], es[1..], rest);
    FirstThen(ws[0], es[0], ws[1], es[1..] + rest);
    assert [es[0]] + (es[1..] + rest) == es + rest;
  }

  /** The other end subscribes and this end publishes the same route, and both hear of it. */
  function Meeting(id: string): seq<Event> {
    [There(DoRegister(Key(Interest, id), true, true)), Here(DoReceive(true)),
     Here(DoRegister(Key(Intent, id), true, true)), There(DoReceive(true))]
  }

  function Met(size: nat, id: string): World {
    World(Fresh(size).(registry := map[Key(Interest, id) := Remote(id), Key(Intent, id) := Local]),
          Fresh(size).(registry := map[Key(Interest, id) := Local, Key(Intent, id) := Remote(id)]), [], [])
  }

  function Subscribed(size: nat, id: string): World {
    World(Fresh(size).(registry := map[Key(Interest, id) := Remote(id)]),
          Fresh(size).(registry := map[Key(Interest, id) := Local]), [], [])
  }

  lemma SubscribingSteps(size: nat, id: string) returns (w1: World)
    requires IsRouteId(id) && Parses(id)
    ensures Leads(Start(size), Meeting(id)[0], w1) && Leads(w1, Meeting(id)[1], Subscribed(size, id))
  {
    IdParsesToItself(id);
    w1 := Step(Start(size), Meeting(id)[0]);
    assert w1.incoming == [Advert(Interest, id, true)];
    assert Step(w1, Meeting(id)[1]) == Subscribed(size, id);
  }

  lemma PublicationSteps(size: nat, id: string) returns (w3: World)
    requires IsRouteId(id) && Parses(id)
    ensures Leads(Subscribed(size, id), Meeting(id)[2], w3) && Leads(w3, Meeting(id)[3], Met(size, id))
  {
    IdParsesToItself(id);
    w3 := Step(Subscribed(size, id), Meeting(id)[2]);
    assert w3.outgoing == [Advert(Intent, id, true)];
    assert Step(w3, Meeting(id)[3]) == Met(size, id);
  }

  lemma Meets(size: nat, id: string, rest: seq<Event>)
    requires IsRouteId(id) && Parses(id) && Enables(Met(size, id), rest)
    ensures Enables(Start(size), Meeting(id) + rest) && Run(Start(size), Meeting(id) + rest) == Run(Met(size, id), rest)
  {
    var w1 := SubscribingSteps(size, id);
    var w3 := PublicationSteps(size, id);
    FourThen([Start(size), w1, Subscribed(size, id), w3, Met(size, id)], Meeting(id), rest);
  }

  /** The publisher sends one payload, and the remote interest writes it to the connection. */
  function Publishing(id: string, payload: nat): seq<Event> {
    [Here(DoConnect(id)), Here(DoSend(id, payload, true)), Here(DoForward(id, true))]
  }

  /** One payload is on the way to its subscriber. */
  function Underway(size: nat, id: string, payload: nat): World {
    var met := Met(size, id);
    met.(here := met.here.(linked := {id}, queues := map[id := []], accepted := map[id := [payload]]),
         outgoing := [Data(id, Item(0, payload))])
  }

  lemma PublishingSteps(size: nat, id: string, payload: nat) returns (w1: World, w2: World)
    requires size > 0
    ensures var es := Publishing(id, payload);
            Leads(Met(size, id), es[0], w1) && Leads(w1, es[1], w2) && Leads(w2, es[2], Underway(size, id, payload))
  {
    var es := Publishing(id, payload);
    w1 := Step(Met(size, id), es[0]);
    assert w1.here == Met(size, id).here.(linked := {id});
    w2 := Step(w1, es[1]);
    assert w1.here.Accepted(id) == [] && w1.here.Queue(id) == [];
    assert [] + [payload] == [payload] && [] + [Item(0, payload)] == [Item(0, payload)];
    assert w2.here.queues == map[id := [Item(0, payload)]];
    assert w2.here.accepted == map[id := [payload]];
    var w3 := Step(w2, es[2]);
    assert w3.here.queues == map[id := []];
    assert w3.outgoing == [Data(id, Item(0, payload))];
  }

  lemma Publishes(size: nat, id: string, payload: nat, rest: seq<Event>)
    requires size > 0 && Enables(Underway(size, id, payload), rest)
    ensures Enables(Met(size, id), Publishing(id, payload) + rest)
    ensures Run(Met(size, id), Publishing(id, payload) + rest) == Run(Underway(size, id, payload), rest)
  {
    var w1, w2 := PublishingSteps(size, id, payload);
    ThreeThen([Met(size, id), w1, w2, Underway(size, id, payload)], Publishing(id, payload), rest);
  }

  function Leaving(id: string, accepted: bool): seq<Event> {
    [There(DoClose(Key(Interest, id), true)), There(DoReceive(accepted))]
  }

  /** Such a run from the start: one payload on the way when its only subscriber leaves. */
  lemma LatePayloadRun(size: nat, id: string, payload: nat, accepted: bool)
    requires size > 0 && IsRouteId(id) && Parses(id)
    ensures var es := Meeting(id) + (Publishing(id, payload) + Leaving(id, accepted));
            && Enables(Start(size), es)
            && Run(Start(size), es).there.closed && Run(Start(size), es).there.registry == map[]
  {
    LatePayloadEndsEnd(Underway(size, id, payload), id, Item(0, payload), accepted);
    Publishes(size, id, payload, Leaving(id, accepted));
    Meets(size, id, Publishing(id, payload) + Leaving(id, accepted));
  }
}