/**
 The InterestRouter: every message that arrives on one of its interests is offered to the
 bounded queue of each subscriber's wrapper, under one lock. Messages are known by their
 place in the order in which they were routed.
 */
module InterestRouter {
  import opened Sequences
  import opened Wrappers

  // ---------------------------------------------------------------- runs

  /** Offers a message to a queue, which takes it unless it is full. */
  function Offer(size: nat, queue: seq<nat>, msg: nat): seq<nat> {
    if |queue| < size then queue + [msg] else queue
  }

  datatype Phase = Open | Removed | Closed

  /** `accepted` is all that ever entered the queue. */
  datatype Wrapper = Wrapper(queue: seq<nat>, accepted: seq<nat>, phase: Phase)

  datatype Message = Message(source: nat, payload: nat)

  /** An interest: what was put on its channel so far, what is left, the runner's hand, and whether it is gone. */
  datatype Source = Source(sent: seq<nat>, channel: seq<nat>, hand: Option<nat>, quit: bool)

  datatype State = State(
    size: nat,
    list: seq<nat>,
    wrappers: seq<Wrapper>,       // by number, every wrapper ever made
    sources: map<nat, Source>,
    routed: seq<Message>,
    closed: bool,
    returned: bool)               // the removal that closed the router has returned

  datatype Event =
    | Wrap
    | Remove(w: nat)              // a closed wrapper leaves the list
    | CloseChannel(w: nat)        // and then closes its channel
    | Consume(w: nat)
    | Emit(source: nat, payload: nat)
    | Pick(source: nat)
    | RouteFrom(source: nat)
    | Quit(source: nat)           // its context or the router's has ended
    | Return

  /** The removal of the last wrapper keeps the router's lock while it waits for the runners. */
  predicate Waits(s: State) {
    s.closed && !s.returned
  }

  predicate Enabled(s: State, e: Event) {
    match e
    case Wrap => !Waits(s)
    case Remove(w) => !Waits(s) && w < |s.wrappers| && s.wrappers[w].phase.Open?
    case CloseChannel(w) => w < |s.wrappers| && s.wrappers[w].phase.Removed?
    case Consume(w) => w < |s.wrappers| && s.wrappers[w].queue != []
    case Emit(_, _) => true
    case Pick(src) => Idle(s, src) && s.sources[src].channel != []
    case RouteFrom(src) => src in s.sources && s.sources[src].hand.Some? && !Waits(s)
    case Quit(src) => Idle(s, src)
    case Return => Waits(s) && forall src | src in s.sources :: s.sources[src].quit
  }

  predicate Idle(s: State, src: nat) {
    src in s.sources && s.sources[src].hand.None? && !s.sources[src].quit
  }

  function Offered(size: nat, w: Wrapper, msg: nat): Wrapper {
    w.(queue := Offer(size, w.queue, msg), accepted := if |w.queue| < size then w.accepted + [msg] else w.accepted)
  }

  function Broadcast(s: State, msg: nat): (ws: seq<Wrapper>)
    ensures |ws| == |s.wrappers|
  {
    seq(|s.wrappers|, w requires 0 <= w < |s.wrappers| =>
      if Contains(s.list, w) then Offered(s.size, s.wrappers[w], msg) else s.wrappers[w])
  }

  function SourceOf(s: State, src: nat): Source {
    if src in s.sources then s.sources[src] else Source([], [], None, false)
  }

  function Step(s: State, e: Event): State
    requires Enabled(s, e)
  {
    match e
    case Wrap => s.(list := s.list + [|s.wrappers|], wrappers := s.wrappers + [Wrapper([], [], Open)])
    case Remove(w) =>
      var list := RemoveFirst(s.list, w);
      s.(list := list, wrappers := s.wrappers[w := s.wrappers[w].(phase := Removed)], closed := s.closed || list == [])
    case CloseChannel(w) => s.(wrappers := s.wrappers[w := s.wrappers[w].(phase := Closed)])
    case Consume(w) => s.(wrappers := s.wrappers[w := s.wrappers[w].(queue := s.wrappers[w].queue[1..])])
    case Emit(src, x) =>
      var o := SourceOf(s, src);
      s.(sources := s.sources[src := o.(sent := o.sent + [x], channel := o.channel + [x])])
    case Pick(src) =>
      var o := s.sources[src];
      s.(sources := s.sources[src := o.(channel := o.channel[1..], hand := Some(o.channel[0]))])
    case RouteFrom(src) =>
      s.(routed := s.routed + [Message(src, s.sources[src].hand.value)],
         sources := s.sources[src := s.sources[src].(hand := None)],
         wrappers := Broadcast(s, |s.routed|))
    case Quit(src) => s.(sources := s.sources[src := s.sources[src].(quit := true)])
    case Return => s.(returned := true)
  }

  ghost predicate Enables(s: State, es: seq<Event>)
    decreases |es|
  {
    es == [] || (Enabled(s, es[0]) && Enables(Step(s, es[0]), es[1..]))
  }

  ghost function Run(s: State, es: seq<Event>): State
    requires Enables(s, es)
    decreases |es|
  {
    if es == [] then s else Run(Step(s, es[0]), es[1..])
  }

  function Initial(size: nat): State {
    State(size, [], [], map[], [], false, false)
  }

  // ---------------------------------------------------------------- what every run keeps

  ghost predicate Increasing(ps: seq<nat>, bound: nat) {
    && (forall i, j | 0 <= i < j < |ps| :: ps[i] < ps[j])
    && (forall i | 0 <= i < |ps| :: ps[i] < bound)
  }

  /** A queue holds the last part of what entered it. */
  predicate Suffix(queue: seq<nat>, accepted: seq<nat>) {
    |queue| <= |accepted| && accepted[|accepted| - |queue|..] == queue
  }

  ghost predicate WrapperOk(s: State, w: nat)
    requires w < |s.wrappers|
  {
    && Increasing(s.wrappers[w].accepted, |s.routed|)
    && Suffix(s.wrappers[w].queue, s.wrappers[w].accepted)
    && |s.wrappers[w].queue| <= s.size
    && (Contains(s.list, w) <==> s.wrappers[w].phase.Open?)
  }

  ghost predicate Inv(s: State) {
    && Distinct(s.list)
    && (forall i | 0 <= i < |s.list| :: s.list[i] < |s.wrappers|)
    && (forall w | 0 <= w < |s.wrappers| :: WrapperOk(s, w))
  }

  lemma WrapKeeps(s: State)
    requires Inv(s) && Enabled(s, Wrap)
    ensures Inv(Step(s, Wrap))
  {
    var s' := Step(s, Wrap);
    var n := |s.wrappers|;
    forall w | 0 <= w < |s'.wrappers| ensures WrapperOk(s', w) {
      AppendContains(s.list, n, w);
      if w < n { assert WrapperOk(s, w); }
    }
  }

  lemma RemovedWrapperOk(s: State, w: nat, v: nat)
    requires Enabled(s, Remove(w)) && Distinct(s.list) && v < |s.wrappers| && WrapperOk(s, v)
    ensures WrapperOk(Step(s, Remove(w)), v)
  {
    RemovedContains(s.list, w, v);
  }

  lemma RemoveKeeps(s: State, w: nat)
    requires Inv(s) && Enabled(s, Remove(w))
    ensures Inv(Step(s, Remove(w)))
  {
    var s' := Step(s, Remove(w));
    assert Distinct(s'.list) && forall i | 0 <= i < |s'.list| :: s'.list[i] < |s'.wrappers| by {
      RemovedDistinct(s.list, w);
      RemovedElements(s.list, w);
    }
    forall v | 0 <= v < |s'.wrappers| ensures WrapperOk(s', v) { RemovedWrapperOk(s, w, v); }
  }

  lemma OfferKeeps(size: nat, w: Wrapper, bound: nat)
    requires Increasing(w.accepted, bound) && Suffix(w.queue, w.accepted) && |w.queue| <= size
    ensures var w' := Offered(size, w, bound);
            Increasing(w'.accepted, bound + 1) && Suffix(w'.queue, w'.accepted) && |w'.queue| <= size
  {
  }

  lemma StepKeepsInv(s: State, e: Event)
    requires Inv(s) && Enabled(s, e)
    ensures Inv(Step(s, e))
  {
    var s' := Step(s, e);
    match e
    case Wrap => WrapKeeps(s);
    case Remove(w) => RemoveKeeps(s, w);
    case CloseChannel(w) =>
      forall v | 0 <= v < |s'.wrappers| ensures WrapperOk(s', v) { assert WrapperOk(s, v); }
    case Consume(w) =>
      forall v | 0 <= v < |s'.wrappers| ensures WrapperOk(s', v) { assert WrapperOk(s, v); }
    case Emit(_, _) =>
      forall v | 0 <= v < |s'.wrappers| ensures WrapperOk(s', v) { assert WrapperOk(s, v); }
    case Pick(_) =>
      forall v | 0 <= v < |s'.wrappers| ensures WrapperOk(s', v) { assert WrapperOk(s, v); }
    case Quit(_) =>
      forall v | 0 <= v < |s'.wrappers| ensures WrapperOk(s', v) { assert WrapperOk(s, v); }
    case Return =>
      forall v | 0 <= v < |s'.wrappers| ensures WrapperOk(s', v) { assert WrapperOk(s, v); }
    case RouteFrom(_) =>
      forall v | 0 <= v < |s'.wrappers| ensures WrapperOk(s', v) {
        assert WrapperOk(s, v);
        OfferKeeps(s.size, s.wrappers[v], |s.routed|);
      }
  }

  // ---------------------------------------------------------------- the router object

  ghost predicate Represents(model: State, list: seq<nat>, channels: map<nat, seq<nat>>) {
    && model.list == list
    && (forall w :: w in channels <==> 0 <= w < |model.wrappers|)
    && (forall w | 0 <= w < |model.wrappers| :: channels[w] == model.wrappers[w].queue)
  }

  /** The router's own fields, and in `model` also what has happened to them so far. */
  class Router {
    const size: nat
    var wrappers: seq<nat>
    var channels: map<nat, seq<nat>>     // of every wrapper ever made
    var sources: map<nat, Source>        // the interests that are fanned in
    var closed: bool
    var returned: bool
    var made: nat
    var routed: nat
    ghost var model: State

    ghost predicate Valid()
      reads this
    {
      && Inv(model) && Represents(model, wrappers, channels)
      && model.size == size && model.sources == sources && model.closed == closed && model.returned == returned
      && made == |model.wrappers| && routed == |model.routed|
    }

    constructor (size: nat)
      ensures Valid() && model == Initial(size)
    {
      this.size := size;
      wrappers, channels, sources, made, routed := [], map[], map[], 0, 0;
      closed, returned := false, false;
      model := Initial(size);
    }

    method AddWrapper() returns (w: nat)
      requires Valid() && Enabled(model, Wrap)
      modifies this
      ensures Valid() && model == Step(old(model), Wrap) && w == old(made)
    {
      WrapKeeps(model);
      w := made;
      made := made + 1;
      channels := channels[w := []];
      wrappers := wrappers + [w];
      model := Step(model, Wrap);
    }

    /** Deletes the wrapper in place, if it is listed. */
    method DeleteWrapper(w: nat)
      modifies this`wrappers
      ensures wrappers == RemoveFirst(old(wrappers), w)
    {
      var idx := 0;
      while idx < |wrappers| && wrappers[idx] != w
        invariant 0 <= idx <= |wrappers| && wrappers == old(wrappers)
        invariant forall i | 0 <= i < idx :: wrappers[i] != w
      {
        idx := idx + 1;
      }
      assert idx == IndexOf(wrappers, w);
      if idx < |wrappers| {
        wrappers := wrappers[..idx] + wrappers[idx + 1..];
      }
    }

    /** The router closes with its last wrapper. */
    method RemoveWrapper(w: nat)
      requires Valid() && Enabled(model, Remove(w))
      modifies this`wrappers, this`closed, this`model
      ensures Valid() && model == Step(old(model), Remove(w))
    {
      RemoveKeeps(model, w);
      RemoveRepresents(model, wrappers, channels, w);
      model := Step(model, Remove(w));
      DeleteWrapper(w);
      if |wrappers| > 0 {
        return;
      }
      closed := true;
    }

    /** What the wrapper's close callback does next: nothing that the router still sends to. */
    ghost method CloseChannel(w: nat)
      requires Valid() && Enabled(model, Event.CloseChannel(w))
      modifies this`model
      ensures Valid() && model == Step(old(model), Event.CloseChannel(w)) && !Contains(wrappers, w)
    {
      assert WrapperOk(model, w);
      StepKeepsInv(model, Event.CloseChannel(w));
      model := Step(model, Event.CloseChannel(w));
    }

    method Consume(w: nat) returns (msg: nat)
      requires Valid() && Enabled(model, Event.Consume(w))
      modifies this`channels, this`model
      ensures Valid() && model == Step(old(model), Event.Consume(w)) && msg == old(model).wrappers[w].queue[0]
    {
      StepKeepsInv(model, Event.Consume(w));
      msg := channels[w][0];
      channels := channels[w := channels[w][1..]];
      model := Step(model, Event.Consume(w));
    }

    method Emit(source: nat, payload: nat)
      requires Valid()
      modifies this`sources, this`model
      ensures Valid() && model == Step(old(model), Event.Emit(source, payload))
    {
      StepKeepsInv(model, Event.Emit(source, payload));
      var o := if source in sources then sources[source] else Source([], [], None, false);
      sources := sources[source := o.(sent := o.sent + [payload], channel := o.channel + [payload])];
      model := Step(model, Event.Emit(source, payload));
    }

    /** The receive runner of an interest takes the next message off its channel. */
    method Pick(source: nat)
      requires Valid() && Enabled(model, Event.Pick(source))
      modifies this`sources, this`model
      ensures Valid() && model == Step(old(model), Event.Pick(source))
    {
      StepKeepsInv(model, Event.Pick(source));
      var o := sources[source];
      sources := sources[source := o.(channel := o.channel[1..], hand := Some(o.channel[0]))];
      model := Step(model, Event.Pick(source));
    }

    /** A runner without a message in hand stops when its context ends. */
    method Quit(source: nat)
      requires Valid() && Enabled(model, Event.Quit(source))
      modifies this`sources, this`model
      ensures Valid() && model == Step(old(model), Event.Quit(source))
    {
      StepKeepsInv(model, Event.Quit(source));
      sources := sources[source := sources[source].(quit := true)];
      model := Step(model, Event.Quit(source));
    }

    /** And the removal that closed the router returns when all of them have stopped. */
    method Return()
      requires Valid() && Enabled(model, Event.Return)
      modifies this`returned, this`model
      ensures Valid() && model == Step(old(model), Event.Return)
    {
      StepKeepsInv(model, Event.Return);
      returned := true;
      model := Step(model, Event.Return);
    }

    /** Or the runner hands its message to the router, for which it needs the lock. */
    method RouteFrom(source: nat)
      requires Valid() && Enabled(model, Event.RouteFrom(source))
      modifies this
      ensures Valid() && model == Step(old(model), Event.RouteFrom(source))
    {
      StepKeepsInv(model, Event.RouteFrom(source));
      ghost var before := channels;
      RouteMsg(routed);
      BroadcastRepresents(model, wrappers, before, channels, source);
      sources := sources[source := sources[source].(hand := None)];
      routed := routed + 1;
      model := Step(model, Event.RouteFrom(source));
    }

    /** Each listed wrapper's queue is offered the message, whatever the others do. */
    method RouteMsg(msg: nat)
      requires Valid()
      modifies this`channels
      ensures channels.Keys == old(channels).Keys
      ensures forall w | w in channels ::
                channels[w] == if Contains(wrappers, w) then Offer(size, old(channels)[w], msg) else old(channels)[w]
    {
      var i := 0;
      while i < |wrappers|
        invariant 0 <= i <= |wrappers|
        invariant channels == Offers(size, old(channels), wrappers[..i], msg)
      {
        var w := wrappers[i];
        OffersNext(size, old(channels), wrappers, i, msg);
        if |channels[w]| < size {
          channels := channels[w := channels[w] + [msg]];
        }
        i := i + 1;
      }
      assert wrappers[..i] == wrappers;
      forall w | w in channels
        ensures channels[w] == if Contains(wrappers, w) then Offer(size, old(channels)[w], msg) else old(channels)[w]
      {
        OffersOnce(size, old(channels), wrappers, msg, w);
      }
    }
  }

  lemma RemoveRepresents(model: State, list: seq<nat>, channels: map<nat, seq<nat>>, w: nat)
    requires Represents(model, list, channels) && Enabled(model, Remove(w))
    ensures var model', rest := Step(model, Remove(w)), RemoveFirst(list, w);
            && Represents(model', rest, channels)
            && model'.closed == (model.closed || |rest| == 0) && |model'.wrappers| == |model.wrappers|
            && model' == model.(list := rest, wrappers := model'.wrappers, closed := model'.closed)
  {
  }

  lemma BroadcastRepresents(model: State, list: seq<nat>, channels: map<nat, seq<nat>>,
                            channels': map<nat, seq<nat>>, source: nat)
    requires Represents(model, list, channels) && Enabled(model, RouteFrom(source))
    requires channels'.Keys == channels.Keys
    requires forall w | w in channels' ::
               channels'[w] == if Contains(list, w) then Offer(model.size, channels[w], |model.routed|) else channels[w]
    ensures Represents(Step(model, RouteFrom(source)), list, channels')
  {
    var model' := Step(model, RouteFrom(source));
    forall w ensures w in channels' <==> 0 <= w < |model'.wrappers| {
      assert w in channels' <==> w in channels;
    }
  }

  lemma OffersNext(size: nat, channels: map<nat, seq<nat>>, ws: seq<nat>, i: nat, msg: nat)
    requires (forall k | 0 <= k < |ws| :: ws[k] in channels) && i < |ws|
    ensures var before, w := Offers(size, channels, ws[..i], msg), ws[i];
            Offers(size, channels, ws[..i + 1], msg) == if |before[w]| < size then before[w := before[w] + [msg]] else before
  {
    assert ws[..i + 1][..i] == ws[..i];
  }

  /** The channels after the message was offered along the list. */
  function Offers(size: nat, channels: map<nat, seq<nat>>, ws: seq<nat>, msg: nat): (offered: map<nat, seq<nat>>)
    requires forall i | 0 <= i < |ws| :: ws[i] in channels
    ensures offered.Keys == channels.Keys
  {
    if ws == [] then channels
    else
      var before := Offers(size, channels, ws[..|ws| - 1], msg);
      var w := ws[|ws| - 1];
      if |before[w]| < size then before[w := before[w] + [msg]] else before
  }

  lemma {:induction false} OffersOnce(size: nat, channels: map<nat, seq<nat>>, ws: seq<nat>, msg: nat, w: nat)
    requires Distinct(ws) && (forall i | 0 <= i < |ws| :: ws[i] in channels) && w in channels
    ensures Offers(size, channels, ws, msg)[w] == if Contains(ws, w) then Offer(size, channels[w], msg) else channels[w]
  {
    if ws == [] {
    } else {
      var n := |ws| - 1;
      assert ws == ws[..n] + [ws[n]];
      AppendContains(ws[..n], ws[n], w);
      OffersOnce(size, channels, ws[..n], msg, w);
    }
  }

  // ---------------------------------------------------------------- every run

  lemma {:induction false} RunKeepsInv(s: State, es: seq<Event>)
    requires Inv(s) && Enables(s, es)
    ensures Inv(Run(s, es)) && Run(s, es).size == s.size
    decreases |es|
  {
    if es == [] {
    } else {
      StepKeepsInv(s, es[0]);
      RunKeepsInv(Step(s, es[0]), es[1..]);
    }
  }

  /** What a subscriber accepted is a subsequence of the one routed order; its queue is the end of it. */
  lemma AcceptedIsSubsequence(size: nat, es: seq<Event>, w: nat)
    requires Enables(Initial(size), es) && w < |Run(Initial(size), es).wrappers|
    ensures var s := Run(Initial(size), es);
            Increasing(s.wrappers[w].accepted, |s.routed|) && Suffix(s.wrappers[w].queue, s.wrappers[w].accepted)
  {
    RunKeepsInv(Initial(size), es);
    assert WrapperOk(Run(Initial(size), es), w);
  }

  /** Two subscribers that both accepted two messages accepted them in the same order. */
  lemma SharedOrder(size: nat, es: seq<Event>, v: nat, w: nat, i: nat, j: nat, k: nat, l: nat)
    requires Enables(Initial(size), es)
    requires var s := Run(Initial(size), es);
             && v < |s.wrappers| && w < |s.wrappers|
             && i < j < |s.wrappers[v].accepted| && k < |s.wrappers[w].accepted| && l < |s.wrappers[w].accepted|
             && s.wrappers[w].accepted[k] == s.wrappers[v].accepted[i]
             && s.wrappers[w].accepted[l] == s.wrappers[v].accepted[j]
    ensures k < l
  {
    RunKeepsInv(Initial(size), es);
    var s := Run(Initial(size), es);
    assert WrapperOk(s, v) && WrapperOk(s, w);
  }

  /** No message is ever sent on a closed wrapper channel. */
  lemma ClosedIsNotListed(size: nat, es: seq<Event>, w: nat)
    requires Enables(Initial(size), es)
    requires var s := Run(Initial(size), es); w < |s.wrappers| && s.wrappers[w].phase.Closed?
    ensures !Contains(Run(Initial(size), es).list, w)
  {
    RunKeepsInv(Initial(size), es);
    assert WrapperOk(Run(Initial(size), es), w);
  }

  // ---------------------------------------------------------------- who gets a message, and when the router closes

  lemma {:induction false} RunSnoc(s: State, es: seq<Event>, e: Event)
    ensures Enables(s, es + [e]) <==> Enables(s, es) && Enabled(Run(s, es), e)
    ensures Enables(s, es + [e]) ==> Run(s, es + [e]) == Step(Run(s, es), e)
    decreases |es|
  {
    if es == [] {
      assert es + [e] == [e] && [e][1..] == [];
    } else {
      assert (es + [e])[1..] == es[1..] + [e];
      if Enabled(s, es[0]) { RunSnoc(Step(s, es[0]), es[1..], e); }
    }
  }

  lemma RunLast(s: State, es: seq<Event>)
    requires Enables(s, es) && es != []
    ensures var n := |es| - 1;
            && Enables(s, es[..n]) && Enabled(Run(s, es[..n]), es[n])
            && Run(s, es) == Step(Run(s, es[..n]), es[n])
  {
    assert es == es[..|es| - 1] + [es[|es| - 1]];
    RunSnoc(s, es[..|es| - 1], es[|es| - 1]);
  }

  /** The step routes message m while subscriber w is there and has room. */
  predicate Gets(s: State, e: Event, w: nat, m: nat) {
    && e.RouteFrom? && |s.routed| == m
    && w < |s.wrappers| && s.wrappers[w].phase.Open? && |s.wrappers[w].queue| < s.size
  }

  ghost predicate GetsAt(s: State, es: seq<Event>, w: nat, m: nat, k: nat)
    requires k < |es|
  {
    Enables(s, es[..k]) && Gets(Run(s, es[..k]), es[k], w, m)
  }

  ghost predicate Got(s: State, es: seq<Event>, w: nat, m: nat) {
    exists k :: 0 <= k < |es| && GetsAt(s, es, w, m, k)
  }

  predicate HasAccepted(s: State, w: nat, m: nat) {
    w < |s.wrappers| && m in s.wrappers[w].accepted
  }

  lemma StepGets(s: State, e: Event, w: nat, m: nat)
    requires Inv(s) && Enabled(s, e)
    ensures HasAccepted(Step(s, e), w, m) <==> HasAccepted(s, w, m) || Gets(s, e, w, m)
  {
    if w < |s.wrappers| { assert WrapperOk(s, w); }
  }

  lemma GotNext(s: State, es: seq<Event>, w: nat, m: nat)
    requires es != [] && Enables(s, es[..|es| - 1])
    ensures var n := |es| - 1; Got(s, es, w, m) <==> Got(s, es[..n], w, m) || Gets(Run(s, es[..n]), es[n], w, m)
  {
    var n := |es| - 1;
    forall k | 0 <= k < n ensures GetsAt(s, es, w, m, k) <==> GetsAt(s, es[..n], w, m, k) {
      assert es[..n][..k] == es[..k];
    }
    assert GetsAt(s, es, w, m, n) <==> Gets(Run(s, es[..n]), es[n], w, m);
  }

  /** In every run a subscriber has accepted a message exactly when it was there and had room when that was routed. */
  lemma {:induction false} AcceptedIff(size: nat, es: seq<Event>, w: nat, m: nat)
    requires Enables(Initial(size), es)
    ensures HasAccepted(Run(Initial(size), es), w, m) <==> Got(Initial(size), es, w, m)
  {
    if es == [] {
    } else {
      var n := |es| - 1;
      RunLast(Initial(size), es);
      AcceptedIff(size, es[..n], w, m);
      RunKeepsInv(Initial(size), es[..n]);
      StepGets(Run(Initial(size), es[..n]), es[n], w, m);
      GotNext(Initial(size), es, w, m);
    }
  }

  ghost predicate RemovesLast(s: State, es: seq<Event>, k: nat)
    requires k < |es|
  {
    es[k].Remove? && Enables(s, es[..k + 1]) && Run(s, es[..k + 1]).list == []
  }

  ghost predicate LastRemoved(s: State, es: seq<Event>) {
    exists k :: 0 <= k < |es| && RemovesLast(s, es, k)
  }

  lemma LastRemovedNext(s: State, es: seq<Event>)
    requires es != [] && Enables(s, es)
    ensures LastRemoved(s, es) <==>
              LastRemoved(s, es[..|es| - 1]) || (es[|es| - 1].Remove? && Run(s, es).list == [])
  {
    var n := |es| - 1;
    forall k | 0 <= k < n ensures RemovesLast(s, es, k) <==> RemovesLast(s, es[..n], k) {
      assert es[..n][..k + 1] == es[..k + 1];
    }
    assert es[..n + 1] == es;
    assert RemovesLast(s, es, n) <==> es[n].Remove? && Run(s, es).list == [];
  }

  /** The router is closed exactly when some removal has left it without subscribers. */
  lemma {:induction false} ClosedIff(size: nat, es: seq<Event>)
    requires Enables(Initial(size), es)
    ensures Run(Initial(size), es).closed <==> LastRemoved(Initial(size), es)
  {
    if es == [] {
    } else {
      RunLast(Initial(size), es);
      ClosedIff(size, es[..|es| - 1]);
      LastRemovedNext(Initial(size), es);
    }
  }

  // ---------------------------------------------------------------- each source's order

  /** What a run puts on a source's channel. */
  function Emitted(es: seq<Event>, src: nat): seq<nat> {
    if es == [] then []
    else Emitted(es[..|es| - 1], src) + match es[|es| - 1] case Emit(r, x) => (if r == src then [x] else []) case _ => []
  }

  lemma {:induction false} SentIsEmitted(size: nat, es: seq<Event>, src: nat)
    requires Enables(Initial(size), es)
    ensures SourceOf(Run(Initial(size), es), src).sent == Emitted(es, src)
  {
    if es == [] {
    } else {
      RunLast(Initial(size), es);
      SentIsEmitted(size, es[..|es| - 1], src);
    }
  }

  function From(ms: seq<Message>, src: nat): seq<nat> {
    if ms == [] then []
    else From(ms[..|ms| - 1], src) + if ms[|ms| - 1].source == src then [ms[|ms| - 1].payload] else []
  }

  function Held(hand: Option<nat>): seq<nat> {
    if hand.Some? then [hand.value] else []
  }

  /** What a source sent was routed in that order, is in the runner's hand, or still on the channel. */
  ghost predicate SourceInOrder(s: State, src: nat) {
    var o := SourceOf(s, src);
    From(s.routed, src) + Held(o.hand) + o.channel == o.sent
  }

  lemma PickKeepsSourceOrder(s: State, src: nat)
    requires Enabled(s, Pick(src)) && SourceInOrder(s, src)
    ensures SourceInOrder(Step(s, Pick(src)), src)
  {
    var o, routed := SourceOf(s, src), From(s.routed, src);
    Regroup(routed, [o.channel[0]], o.channel[1..]);
    assert o.channel == [o.channel[0]] + o.channel[1..] && routed + [] == routed;
  }

  lemma RouteKeepsSourceOrder(s: State, r: nat, src: nat)
    requires Enabled(s, RouteFrom(r)) && SourceInOrder(s, src)
    ensures SourceInOrder(Step(s, RouteFrom(r)), src)
  {
    var routed := From(s.routed, src);
    assert Step(s, RouteFrom(r)).routed[..|s.routed|] == s.routed;
    assert routed + Held(SourceOf(s, src).hand) + [] == routed + Held(SourceOf(s, src).hand) && routed + [] == routed;
  }

  lemma StepKeepsSourceOrder(s: State, e: Event, src: nat)
    requires Enabled(s, e) && SourceInOrder(s, src)
    ensures SourceInOrder(Step(s, e), src)
  {
    match e
    case Emit(r, x) =>
      if r == src { Regroup(From(s.routed, src) + Held(SourceOf(s, src).hand), SourceOf(s, src).channel, [x]); }
    case Pick(r) =>
      if r == src { PickKeepsSourceOrder(s, src); }
    case RouteFrom(r) => RouteKeepsSourceOrder(s, r, src);
    case _ =>
  }

  lemma {:induction false} SourcesKeepTheirOrder(s: State, es: seq<Event>, src: nat)
    requires Enables(s, es) && SourceInOrder(s, src)
    ensures SourceInOrder(Run(s, es), src)
    decreases |es|
  {
    if es == [] {
    } else {
      StepKeepsSourceOrder(s, es[0], src);
      SourcesKeepTheirOrder(Step(s, es[0]), es[1..], src);
    }
  }

  // ---------------------------------------------------------------- closing

  ghost predicate CanReturn(s: State) {
    exists es :: Enables(s, es) && Run(s, es).returned
  }

  /** A runner that has stopped has nothing in hand. */
  ghost predicate StoppedIsEmpty(s: State) {
    forall src | src in s.sources && s.sources[src].quit :: s.sources[src].hand.None?
  }

  predicate HandFull(s: State, src: nat) {
    src in s.sources && s.sources[src].hand.Some?
  }

  lemma {:induction false} StoppedStaysEmpty(s: State, es: seq<Event>)
    requires StoppedIsEmpty(s) && Enables(s, es)
    ensures StoppedIsEmpty(Run(s, es))
    decreases |es|
  {
    if es == [] {
    } else {
      StoppedStaysEmpty(Step(s, es[0]), es[1..]);
    }
  }

  /** While the removal waits for a full hand, nothing is routed and no subscriber comes or goes, forever. */
  lemma {:induction false} FullHandHoldsForever(s: State, es: seq<Event>, src: nat)
    requires Waits(s) && StoppedIsEmpty(s) && HandFull(s, src) && Enables(s, es)
    ensures var s' := Run(s, es); Waits(s') && HandFull(s', src) && s'.routed == s.routed && s'.list == s.list
    decreases |es|
  {
    if es == [] {
    } else {
      FullHandHoldsForever(Step(s, es[0]), es[1..], src);
    }
  }

  lemma {:induction false} EmptyHandsStop(s: State, running: set<nat>) returns (es: seq<Event>)
    requires Waits(s) && (forall src :: src in running ==> Idle(s, src))
    requires forall src | src in s.sources && src !in running :: s.sources[src].quit
    ensures Enables(s, es) && Run(s, es).returned
    decreases |running|
  {
    if running == {} {
      es := [Return];
    } else {
      var src :| src in running;
      var rest := EmptyHandsStop(Step(s, Quit(src)), running - {src});
      es := [Quit(src)] + rest;
      assert es[1..] == rest;
    }
  }

  /** The removal of the last wrapper can return exactly when no runner has a message in hand. */
  lemma RemovalReturnsIff(size: nat, es: seq<Event>)
    requires Enables(Initial(size), es) && Waits(Run(Initial(size), es))
    ensures var s := Run(Initial(size), es); CanReturn(s) <==> forall src :: !HandFull(s, src)
  {
    var s := Run(Initial(size), es);
    StoppedStaysEmpty(Initial(size), es);
    if src :| HandFull(s, src) {
      forall more | Enables(s, more) ensures !Run(s, more).returned {
        FullHandHoldsForever(s, more, src);
      }
    } else {
      assert forall src | src in s.sources && !s.sources[src].quit :: !HandFull(s, src);
      var _ := EmptyHandsStop(s, set src | src in s.sources && !s.sources[src].quit);
    }
  }

  /** One message in hand when the only subscriber leaves is enough. */
  lemma RemovalCanHang(size: nat, payload: nat)
    ensures var es := [Wrap, Emit(0, payload), Pick(0), Remove(0)];
            && Enables(Initial(size), es)
            && Waits(Run(Initial(size), es)) && HandFull(Run(Initial(size), es), 0)
  {
    var es := [Wrap, Emit(0, payload), Pick(0), Remove(0)];
    var s1 := Step(Initial(size), es[0]);
    var s2 := Step(s1, es[1]);
    var s3 := Step(s2, es[2]);
    assert s1.list == [0] && s1.wrappers == [Wrapper([], [], Open)];
    assert s3.sources[0].hand == Some(payload);
    var s4 := Step(s3, es[3]);
    assert s4.list == [];
    assert es[1..][1..] == es[2..] && es[2..][1..] == es[3..] && es[3..] == [es[3]] && es[4..] == [];
    assert Enables(s4, []) && Run(s4, []) == s4;
    assert Enables(s3, es[3..]) && Run(s3, es[3..]) == s4;
    assert Enables(s2, es[2..]) && Run(s2, es[2..]) == s4;
    assert Enables(s1, es[1..]) && Run(s1, es[1..]) == s4;
  }

  // ---------------------------------------------------------------- independence

  /** What a subscriber alone does, and what is offered to it. */
  datatype OwnEvent = Leave | Shut | Eat | Hear(msg: nat)

  function Alone(size: nat, w: Wrapper, e: OwnEvent): Wrapper {
    match e
    case Leave => w.(phase := Removed)
    case Shut => w.(phase := Closed)
    case Eat => if w.queue == [] then w else w.(queue := w.queue[1..])
    case Hear(msg) => if w.phase.Open? then Offered(size, w, msg) else w
  }

  function RunAlone(size: nat, w: Wrapper, es: seq<OwnEvent>): Wrapper
    decreases |es|
  {
    if es == [] then w else RunAlone(size, Alone(size, w, es[0]), es[1..])
  }

  /** A step as one subscriber sees it: its own steps, and every routed message. */
  function Own(routed: nat, e: Event, w: nat): seq<OwnEvent> {
    match e
    case Remove(v) => if v == w then [Leave] else []
    case CloseChannel(v) => if v == w then [Shut] else []
    case Consume(v) => if v == w then [Eat] else []
    case RouteFrom(_) => [Hear(routed)]
    case _ => []
  }

  function Seen(routed: nat, es: seq<Event>, w: nat): seq<OwnEvent>
    decreases |es|
  {
    if es == [] then []
    else Own(routed, es[0], w) + Seen(if es[0].RouteFrom? then routed + 1 else routed, es[1..], w)
  }

  lemma StepIsOwn(s: State, e: Event, w: nat)
    requires Inv(s) && Enabled(s, e) && w < |s.wrappers|
    ensures var s' := Step(s, e);
            && w < |s'.wrappers| && s'.size == s.size
            && |s'.routed| == |s.routed| + (if e.RouteFrom? then 1 else 0)
            && s'.wrappers[w] == RunAlone(s.size, s.wrappers[w], Own(|s.routed|, e, w))
  {
    assert WrapperOk(s, w);
    var own := Own(|s.routed|, e, w);
    if own != [] {
      assert RunAlone(s.size, s.wrappers[w], own) == Alone(s.size, s.wrappers[w], own[0]);
    }
  }

  /** A subscriber gets exactly what it would get alone: nothing that others do makes it miss a message. */
  lemma {:induction false} SubscribersAreIndependent(s: State, es: seq<Event>, w: nat)
    requires Inv(s) && Enables(s, es) && w < |s.wrappers|
    ensures w < |Run(s, es).wrappers|
    ensures Run(s, es).wrappers[w] == RunAlone(s.size, s.wrappers[w], Seen(|s.routed|, es, w))
    decreases |es|
  {
    if es == [] {
    } else {
      StepKeepsInv(s, es[0]);
      StepIsOwn(s, es[0], w);
      SubscribersAreIndependent(Step(s, es[0]), es[1..], w);
      AloneAppend(s.size, s.wrappers[w], Own(|s.routed|, es[0], w), Seen(|Step(s, es[0]).routed|, es[1..], w));
    }
  }

  lemma {:induction false} AloneAppend(size: nat, w: Wrapper, a: seq<OwnEvent>, b: seq<OwnEvent>)
    ensures RunAlone(size, w, a + b) == RunAlone(size, RunAlone(size, w, a), b)
    decreases |a|
  {
    if a == [] {
      assert a + b == b;
    } else {
      assert (a + b)[1..] == a[1..] + b;
      AloneAppend(size, Alone(size, w, a[0]), a[1..], b);
    }
  }
}
