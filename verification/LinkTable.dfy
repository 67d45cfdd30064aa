/**
 What a Linker holds for one route: the registered intent and interest, the link between
 them, and the goroutines that closing and linking have started for that route. Every
 critical section is one step; every goroutine is a pending task that runs at any later time.
 Objects and links are known by the number under which they were made.
 */
module LinkTable {
  import opened Wrappers

  datatype Link = Link(id: nat, intent: nat, interest: nat)

  datatype Task =
    | Connect(link: Link)           // Link.Link: point the intent at the interest's channel
    | Sever(link: Link)             // a closed link points its intent at nothing
    | Forget(link: Link)            // a closed link drops the route's link entry
    | Disconnect(intent: nat)       // a closed intent drops its channel
    | RemoveIntent(intent: nat)
    | RemoveInterest(interest: nat)
    | CloseChannel(interest: nat)   // a closed interest closes its channel

  /** A send in progress: the intent and the channel that it has read. */
  datatype Sending = Sending(intent: nat, channel: nat)

  /** `output` is the interest whose channel an intent sends to, where it has one. */
  datatype Runtime = Runtime(
    output: map<nat, nat>,
    openIntents: set<nat>,
    openInterests: set<nat>,
    tasks: set<Task>,
    next: nat,
    panicked: bool,
    closed: set<nat>,               // the interests whose channels are closed
    sends: set<Sending>)

  datatype Cell = Cell(intent: Option<nat>, interest: Option<nat>, link: Option<Link>, rt: Runtime)

  const IDLE := Runtime(map[], {}, {}, {}, 0, false, {}, {})
  const EMPTY := Cell(None, None, None, IDLE)

  // ---------------------------------------------------------------- critical sections

  /** Joins the registered pair unless there is a link already or beforeLink objects. */
  function LinkUp(c: Cell, accepts: bool): Cell
    requires c.intent.Some? && c.interest.Some?
  {
    if c.link.Some? || !accepts then c
    else
      var l := Link(c.rt.next, c.intent.value, c.interest.value);
      c.(link := Some(l), rt := c.rt.(tasks := c.rt.tasks + {Connect(l)}, next := c.rt.next + 1))
  }

  /** ok: neither the wrapper nor the endpoint's callback refuses the new intent. */
  function AddIntent(c: Cell, ok: bool, accepts: bool): Cell {
    if c.intent.Some? || !ok then c
    else
      var n := c.rt.next;
      var c' := c.(intent := Some(n), rt := c.rt.(openIntents := c.rt.openIntents + {n}, next := n + 1));
      if c'.interest.Some? then LinkUp(c', accepts) else c'
  }

  function AddInterest(c: Cell, ok: bool, accepts: bool): Cell {
    if c.interest.Some? || !ok then c
    else
      var n := c.rt.next;
      var c' := c.(interest := Some(n), rt := c.rt.(openInterests := c.rt.openInterests + {n}, next := n + 1));
      if c'.intent.Some? then LinkUp(c', accepts) else c'
  }

  /** The link entry goes, the link itself is not closed. */
  function DropIntent(c: Cell): Cell {
    c.(link := None, intent := None)
  }

  /** The link is closed, which starts its two callbacks. */
  function DropInterest(c: Cell): Cell {
    if c.interest.None? then c
    else
      var tasks := if c.link.Some? then c.rt.tasks + {Sever(c.link.value), Forget(c.link.value)} else c.rt.tasks;
      c.(link := None, interest := None, rt := c.rt.(tasks := tasks))
  }

  /** Pointing an intent at a second, different channel panics. */
  function ConnectTo(rt: Runtime, l: Link): Runtime {
    if l.intent in rt.output && rt.output[l.intent] != l.interest then rt.(panicked := true)
    else rt.(output := rt.output[l.intent := l.interest])
  }

  // ---------------------------------------------------------------- steps

  datatype Event =
    | Publish(ok: bool, accepts: bool)
    | Subscribe(ok: bool, accepts: bool)
    | CloseIntent(intent: nat)
    | CloseInterest(interest: nat)
    | Read(intent: nat)             // Send reads the intent's channel
    | Put(intent: nat, channel: nat) // and then sends to it
    | Do(task: Task)

  predicate Enabled(c: Cell, e: Event) {
    !c.rt.panicked &&
    match e
    case CloseIntent(i) => i in c.rt.openIntents
    case CloseInterest(i) => i in c.rt.openInterests
    case Read(i) => i in c.rt.output
    case Put(i, x) => Sending(i, x) in c.rt.sends
    case Do(t) => t in c.rt.tasks
    case _ => true
  }

  function Perform(c: Cell, t: Task): Cell {
    match t
    case Connect(l) => c.(rt := ConnectTo(c.rt, l))
    case Sever(l) => c.(rt := c.rt.(output := c.rt.output - {l.intent}))
    case Forget(l) => c.(link := None)
    case Disconnect(i) => c.(rt := c.rt.(output := c.rt.output - {i}))
    case RemoveIntent(_) => DropIntent(c)
    case RemoveInterest(_) => DropInterest(c)
    case CloseChannel(i) => c.(rt := c.rt.(closed := c.rt.closed + {i}))
  }

  function Step(c: Cell, e: Event): Cell
    requires Enabled(c, e)
  {
    match e
    case Publish(ok, accepts) => AddIntent(c, ok, accepts)
    case Subscribe(ok, accepts) => AddInterest(c, ok, accepts)
    case CloseIntent(i) =>
      c.(rt := c.rt.(openIntents := c.rt.openIntents - {i}, tasks := c.rt.tasks + {Disconnect(i), RemoveIntent(i)}))
    case CloseInterest(i) =>
      c.(rt := c.rt.(openInterests := c.rt.openInterests - {i}, tasks := c.rt.tasks + {RemoveInterest(i), CloseChannel(i)}))
    case Read(i) => c.(rt := c.rt.(sends := c.rt.sends + {Sending(i, c.rt.output[i])}))
    case Put(i, x) => c.(rt := c.rt.(sends := c.rt.sends - {Sending(i, x)}))
    case Do(t) => Perform(c.(rt := c.rt.(tasks := c.rt.tasks - {t})), t)
  }

  ghost predicate Enables(c: Cell, es: seq<Event>)
    decreases |es|
  {
    es == [] || (Enabled(c, es[0]) && Enables(Step(c, es[0]), es[1..]))
  }

  ghost function Run(c: Cell, es: seq<Event>): Cell
    requires Enables(c, es)
    decreases |es|
  {
    if es == [] then c else Run(Step(c, es[0]), es[1..])
  }

  // ---------------------------------------------------------------- every interleaving

  /** A link entry joins the very intent and interest that are registered. */
  predicate LinkAgrees(c: Cell) {
    c.link.Some? ==> c.intent == Some(c.link.value.intent) && c.interest == Some(c.link.value.interest)
  }

  /** Whatever the order of the goroutines, a link joins the registered objects. */
  lemma {:induction false} LinkAgreesInEveryRun(c: Cell, es: seq<Event>)
    requires LinkAgrees(c) && Enables(c, es)
    ensures LinkAgrees(Run(c, es))
    decreases |es|
  {
    if es == [] {
    } else {
      LinkAgreesInEveryRun(Step(c, es[0]), es[1..]);
    }
  }

  // ---------------------------------------------------------------- orderly runs

  /**
   A registration waits until the route's goroutines are done, the pair may be linked, and a
   link is not severed before it was connected.
   */
  predicate Orderly(c: Cell, e: Event) {
    match e
    case Publish(_, accepts) => accepts && (c.intent.None? ==> c.rt.tasks == {})
    case Subscribe(_, accepts) => accepts && (c.interest.None? ==> c.rt.tasks == {})
    case Do(Sever(l)) => Connect(l) !in c.rt.tasks
    case _ => true
  }

  ghost predicate OrderlyRun(c: Cell, es: seq<Event>)
    requires Enables(c, es)
    decreases |es|
  {
    es == [] || (Orderly(c, es[0]) && OrderlyRun(Step(c, es[0]), es[1..]))
  }

  predicate OfLink(t: Task) {
    t.Connect? || t.Sever? || t.Forget?
  }

  ghost predicate Numbered(c: Cell) {
    && (c.intent.Some? ==> c.intent.value < c.rt.next)
    && (forall i | i in c.rt.output :: i < c.rt.next)
    && (forall t | t in c.rt.tasks && OfLink(t) :: t.link.intent < c.rt.next)
  }

  /** The unfinished link tasks all belong to one link, and none but Connect to the current one. */
  ghost predicate OneLinkUnfinished(c: Cell) {
    && (forall t, u | t in c.rt.tasks && u in c.rt.tasks && OfLink(t) && OfLink(u) :: t.link == u.link)
    && (c.link.Some? ==> forall t | t in c.rt.tasks && OfLink(t) :: t == Connect(c.link.value))
  }

  /** An intent that is still to be connected sends nowhere, and its link is current or severed. */
  ghost predicate ConnectsAreSafe(c: Cell) {
    forall t | t in c.rt.tasks && t.Connect? ::
      && t.link.intent !in c.rt.output
      && (c.intent == Some(t.link.intent) ==> c.link == Some(t.link) || Sever(t.link) in c.rt.tasks)
  }

  ghost predicate SeverPending(c: Cell, intent: nat) {
    exists t :: t in c.rt.tasks && t.Sever? && t.link.intent == intent
  }

  /** The registered intent sends to the linked interest, or is about to be severed. */
  ghost predicate OutputAgrees(c: Cell) {
    c.intent.Some? && c.intent.value in c.rt.output ==>
      || (c.link.Some? && c.link.value.interest == c.rt.output[c.intent.value])
      || SeverPending(c, c.intent.value)
  }

  ghost predicate Settled(c: Cell) {
    && !c.rt.panicked && LinkAgrees(c)
    && (c.intent.Some? && c.interest.Some? ==> c.link.Some?)
    && Numbered(c) && OneLinkUnfinished(c) && ConnectsAreSafe(c) && OutputAgrees(c)
  }

  lemma RegisterKeepsSettled(c: Cell, e: Event)
    requires Settled(c) && (e.Publish? || e.Subscribe?) && Orderly(c, e)
    ensures Settled(Step(c, e))
  {
  }

  lemma CloseKeepsSettled(c: Cell, e: Event)
    requires Settled(c) && (e.CloseIntent? || e.CloseInterest?) && Enabled(c, e)
    ensures Settled(Step(c, e))
  {
    var c' := Step(c, e);
    assert forall t | t in c'.rt.tasks && OfLink(t) :: t in c.rt.tasks;
    assert forall t | t in c.rt.tasks :: t in c'.rt.tasks;
  }

  lemma ConnectKeepsSettled(c: Cell, l: Link)
    requires Settled(c) && Connect(l) in c.rt.tasks
    ensures Settled(Step(c, Do(Connect(l))))
  {
  }

  lemma SeverKeepsSettled(c: Cell, l: Link)
    requires Settled(c) && Sever(l) in c.rt.tasks && Connect(l) !in c.rt.tasks
    ensures Settled(Step(c, Do(Sever(l))))
  {
  }

  lemma OtherTaskKeepsSettled(c: Cell, t: Task)
    requires Settled(c) && t in c.rt.tasks && (t.Forget? || t.Disconnect? || t.RemoveIntent? || t.CloseChannel?)
    ensures Settled(Step(c, Do(t)))
  {
  }

  lemma RemoveInterestKeepsSettled(c: Cell, i: nat)
    requires Settled(c) && RemoveInterest(i) in c.rt.tasks
    ensures Settled(Step(c, Do(RemoveInterest(i))))
  {
    var c' := Step(c, Do(RemoveInterest(i)));
    assert forall u | u in c.rt.tasks && OfLink(u) :: u in c'.rt.tasks;
    assert c.link.None? ==> forall u | u in c'.rt.tasks && OfLink(u) :: u in c.rt.tasks;
    if c.link.Some? {
      assert Sever(c.link.value) in c'.rt.tasks;
    }
  }

  lemma StepKeepsSettled(c: Cell, e: Event)
    requires Settled(c) && Enabled(c, e) && Orderly(c, e)
    ensures Settled(Step(c, e))
  {
    match e
    case Publish(_, _) => RegisterKeepsSettled(c, e);
    case Subscribe(_, _) => RegisterKeepsSettled(c, e);
    case CloseIntent(_) => CloseKeepsSettled(c, e);
    case CloseInterest(_) => CloseKeepsSettled(c, e);
    case Read(_) =>
    case Put(_, _) =>
    case Do(Connect(l)) => ConnectKeepsSettled(c, l);
    case Do(Sever(l)) => SeverKeepsSettled(c, l);
    case Do(RemoveInterest(i)) => RemoveInterestKeepsSettled(c, i);
    case Do(t) => OtherTaskKeepsSettled(c, t);
  }

  lemma {:induction false} OrderlyRunsSettle(c: Cell, es: seq<Event>)
    requires Settled(c) && Enables(c, es) && OrderlyRun(c, es)
    ensures Settled(Run(c, es))
    decreases |es|
  {
    if es == [] {
    } else {
      StepKeepsSettled(c, es[0]);
      OrderlyRunsSettle(Step(c, es[0]), es[1..]);
    }
  }

  /**
   From an empty route, in an orderly run: linked exactly when both are registered, then the
   intent sends to that interest or nowhere, and no intent is ever pointed at two channels.
   */
  lemma LinkedIffBothRegistered(es: seq<Event>)
    requires Enables(EMPTY, es) && OrderlyRun(EMPTY, es)
    ensures var c := Run(EMPTY, es);
            && !c.rt.panicked
            && (c.link.Some? <==> c.intent.Some? && c.interest.Some?)
            && (c.link.Some? && c.intent.value in c.rt.output ==> c.rt.output[c.intent.value] == c.interest.value)
  {
    OrderlyRunsSettle(EMPTY, es);
  }

  // ---------------------------------------------------------------- what a publisher can rely on

  ghost predicate InterestsNumbered(c: Cell) {
    && (forall i | i in c.rt.openInterests :: i < c.rt.next)
    && (forall i | i in c.rt.closed :: i < c.rt.next)
    && (forall t | t in c.rt.tasks && t.CloseChannel? :: t.interest < c.rt.next)
  }

  /** A registered interest whose channel is closed, or about to be, is about to be removed. */
  ghost predicate ClosedIsLeaving(c: Cell) {
    && InterestsNumbered(c)
    && (c.interest.Some? && (c.interest.value in c.rt.closed || CloseChannel(c.interest.value) in c.rt.tasks) ==>
          RemoveInterest(c.interest.value) in c.rt.tasks)
  }

  lemma RegisterKeepsLeaving(c: Cell, e: Event)
    requires ClosedIsLeaving(c) && Enabled(c, e) && (e.Publish? || e.Subscribe?)
    ensures ClosedIsLeaving(Step(c, e))
  {
    var c' := Step(c, e);
    assert forall t | t in c'.rt.tasks && !t.Connect? :: t in c.rt.tasks;
    assert forall t | t in c.rt.tasks :: t in c'.rt.tasks;
  }

  lemma TaskKeepsLeaving(c: Cell, t: Task)
    requires ClosedIsLeaving(c) && Enabled(c, Do(t))
    ensures ClosedIsLeaving(Step(c, Do(t)))
  {
    var c' := Step(c, Do(t));
    assert forall u | u in c'.rt.tasks && !OfLink(u) :: u in c.rt.tasks;
    assert forall u | u in c.rt.tasks && u != t :: u in c'.rt.tasks;
  }

  lemma {:induction false} ClosedIsLeavingInEveryRun(c: Cell, es: seq<Event>)
    requires ClosedIsLeaving(c) && Enables(c, es)
    ensures ClosedIsLeaving(Run(c, es))
    decreases |es|
  {
    if es == [] {
    } else {
      match es[0] {
        case Publish(_, _) => RegisterKeepsLeaving(c, es[0]);
        case Subscribe(_, _) => RegisterKeepsLeaving(c, es[0]);
        case Do(t) => TaskKeepsLeaving(c, t);
        case _ =>
      }
      ClosedIsLeavingInEveryRun(Step(c, es[0]), es[1..]);
    }
  }

  predicate SendsToClosed(c: Cell) {
    c.intent.Some? && c.intent.value in c.rt.output && c.rt.output[c.intent.value] in c.rt.closed
  }

  /**
   In an orderly run the registered intent sends to a closed channel only while the removal of
   that interest or the severing of the intent is pending: never once the route's tasks are done.
   */
  lemma SendsToClosedOnlyWhileLeaving(es: seq<Event>)
    requires Enables(EMPTY, es) && OrderlyRun(EMPTY, es) && SendsToClosed(Run(EMPTY, es))
    ensures var c := Run(EMPTY, es);
            && c.rt.tasks != {}
            && (RemoveInterest(c.rt.output[c.intent.value]) in c.rt.tasks || SeverPending(c, c.intent.value))
  {
    OrderlyRunsSettle(EMPTY, es);
    ClosedIsLeavingInEveryRun(EMPTY, es);
  }

  // ---------------------------------------------------------------- exactly when it goes wrong

  lemma {:induction false} RunSnoc(c: Cell, es: seq<Event>, e: Event)
    ensures Enables(c, es + [e]) <==> Enables(c, es) && Enabled(Run(c, es), e)
    ensures Enables(c, es + [e]) ==> Run(c, es + [e]) == Step(Run(c, es), e)
    decreases |es|
  {
    if es == [] {
      assert es + [e] == [e] && [e][1..] == [];
    } else {
      assert (es + [e])[1..] == es[1..] + [e];
      if Enabled(c, es[0]) { RunSnoc(Step(c, es[0]), es[1..], e); }
    }
  }

  lemma RunLast(es: seq<Event>)
    requires Enables(EMPTY, es) && es != []
    ensures var n := |es| - 1;
            && Enables(EMPTY, es[..n]) && Enabled(Run(EMPTY, es[..n]), es[n])
            && Run(EMPTY, es) == Step(Run(EMPTY, es[..n]), es[n])
  {
    assert es == es[..|es| - 1] + [es[|es| - 1]];
    RunSnoc(EMPTY, es[..|es| - 1], es[|es| - 1]);
  }

  function Redirected(was: Option<nat>, e: Event, intent: nat): Option<nat> {
    match e
    case Do(Connect(l)) => if l.intent == intent then Some(l.interest) else was
    case Do(Sever(l)) => if l.intent == intent then None else was
    case Do(Disconnect(i)) => if i == intent then None else was
    case _ => was
  }

  /** Where the last task of a run that concerns the intent's output pointed it. */
  function Target(es: seq<Event>, intent: nat): Option<nat> {
    if es == [] then None else Redirected(Target(es[..|es| - 1], intent), es[|es| - 1], intent)
  }

  lemma {:induction false} OutputIsTarget(es: seq<Event>, intent: nat)
    requires Enables(EMPTY, es) && !Run(EMPTY, es).rt.panicked
    ensures var output := Run(EMPTY, es).rt.output;
            Target(es, intent) == if intent in output then Some(output[intent]) else None
  {
    if es == [] {
    } else {
      RunLast(es);
      OutputIsTarget(es[..|es| - 1], intent);
    }
  }

  /** A step double-links exactly when it connects an intent whose last task left it on another channel. */
  lemma PanicIff(es: seq<Event>, e: Event)
    requires Enables(EMPTY, es + [e])
    ensures Run(EMPTY, es + [e]).rt.panicked <==>
              && e.Do? && e.task.Connect?
              && Target(es, e.task.link.intent).Some? && Target(es, e.task.link.intent).value != e.task.link.interest
  {
    RunSnoc(EMPTY, es, e);
    if e.Do? && e.task.Connect? {
      OutputIsTarget(es, e.task.link.intent);
    }
  }

  predicate Paired(c: Cell) {
    c.intent.Some? && c.interest.Some?
  }

  /** A linked pair stays registered and loses its link exactly by a link's callback. */
  lemma LosesLinkIff(c: Cell, e: Event)
    requires Enabled(c, e) && Paired(c) && c.link.Some?
    ensures Paired(Step(c, e)) && Step(c, e).link.None? <==> e.Do? && e.task.Forget?
  {
  }

  predicate Declines(e: Event) {
    (e.Publish? || e.Subscribe?) && !e.accepts
  }

  /** The step leaves a pair without a link: a link's callback, or pairing that beforeLink declines. */
  ghost predicate Unlinks(es: seq<Event>, k: nat)
    requires k < |es| && Enables(EMPTY, es[..k])
  {
    (es[k].Do? && es[k].task.Forget?) || (!Paired(Run(EMPTY, es[..k])) && Declines(es[k]))
  }

  ghost predicate PairedAfter(es: seq<Event>, k: nat) {
    forall m | k < m <= |es| :: Enables(EMPTY, es[..m]) && Paired(Run(EMPTY, es[..m]))
  }

  ghost predicate LeftUnlinked(es: seq<Event>) {
    exists k :: 0 <= k < |es| && UnlinkedAt(es, k)
  }

  lemma UnlinkedStep(c: Cell, e: Event)
    requires Enabled(c, e) && LinkAgrees(c)
    ensures !Paired(c) && Paired(Step(c, e)) ==> (Step(c, e).link.None? <==> Declines(e))
    ensures Paired(c) && c.link.None? && Paired(Step(c, e)) ==> Step(c, e).link.None?
    ensures Paired(Step(c, e)) && e.Do? && e.task.Forget? ==> Step(c, e).link.None? && Paired(c)
  {
  }

  /**
   In every run, a route has both sides registered and no link exactly when some step unlinked the
   pair, or declined to link it, and the pair has been registered ever since.
   */
  lemma {:induction false} UnlinkedIff(es: seq<Event>)
    requires Enables(EMPTY, es)
    ensures Paired(Run(EMPTY, es)) && Run(EMPTY, es).link.None? <==> LeftUnlinked(es)
  {
    if es == [] {
    } else {
      var n := |es| - 1;
      var before := es[..n];
      RunLast(es);
      var c := Run(EMPTY, before);
      LinkAgreesInEveryRun(EMPTY, before);
      UnlinkedIff(before);
      UnlinkedStep(c, es[n]);
      if Paired(c) && c.link.Some? { LosesLinkIff(c, es[n]); }
      LeftUnlinkedNext(es);
    }
  }

  lemma PairedAfterNext(es: seq<Event>, k: nat)
    requires k < |es| - 1 && Enables(EMPTY, es)
    ensures PairedAfter(es, k) <==> PairedAfter(es[..|es| - 1], k) && Paired(Run(EMPTY, es))
  {
    var n := |es| - 1;
    assert es[..|es|] == es;
    forall m | 0 <= m <= n ensures es[..n][..m] == es[..m] {}
    if PairedAfter(es, k) {
      assert Paired(Run(EMPTY, es[..|es|]));
    }
    if PairedAfter(es[..n], k) {
      forall m | k < m <= n ensures Enables(EMPTY, es[..m]) && Paired(Run(EMPTY, es[..m])) {
        assert Enables(EMPTY, es[..n][..m]) && Paired(Run(EMPTY, es[..n][..m]));
      }
    }
  }

  /** The unlinking step k, and the pair registered ever since. */
  ghost predicate UnlinkedAt(es: seq<Event>, k: nat)
    requires k < |es|
  {
    Enables(EMPTY, es[..k]) && Unlinks(es, k) && PairedAfter(es, k)
  }

  lemma UnlinkedAtNext(es: seq<Event>, k: nat)
    requires k < |es| - 1 && Enables(EMPTY, es)
    ensures UnlinkedAt(es, k) <==> UnlinkedAt(es[..|es| - 1], k) && Paired(Run(EMPTY, es))
  {
    assert es[..|es| - 1][..k] == es[..k];
    PairedAfterNext(es, k);
  }

  lemma UnlinkedAtLast(es: seq<Event>)
    requires es != [] && Enables(EMPTY, es) && Enables(EMPTY, es[..|es| - 1])
    ensures UnlinkedAt(es, |es| - 1) <==> Unlinks(es, |es| - 1) && Paired(Run(EMPTY, es))
  {
    assert es[..|es|] == es;
    if UnlinkedAt(es, |es| - 1) {
      assert Paired(Run(EMPTY, es[..|es|]));
    }
  }

  lemma LeftUnlinkedNext(es: seq<Event>)
    requires es != [] && Enables(EMPTY, es) && Enables(EMPTY, es[..|es| - 1])
    ensures LeftUnlinked(es) <==>
              Paired(Run(EMPTY, es)) && (LeftUnlinked(es[..|es| - 1]) || Unlinks(es, |es| - 1))
  {
    var n := |es| - 1;
    UnlinkedAtLast(es);
    forall k | 0 <= k < n ensures UnlinkedAt(es, k) <==> UnlinkedAt(es[..n], k) && Paired(Run(EMPTY, es)) {
      UnlinkedAtNext(es, k);
    }
  }

  /**
   A send in progress hits a closed channel exactly when the interest's own callback has run; the
   channel is one the intent was pointed at when the send read it.
   */
  lemma SendHitsClosedIff(es: seq<Event>, intent: nat, channel: nat)
    requires Enables(EMPTY, es) && Sending(intent, channel) in Run(EMPTY, es).rt.sends
    ensures channel in Run(EMPTY, es).rt.closed <==> Do(CloseChannel(channel)) in es
    ensures exists k :: 0 <= k < |es| && es[k] == Read(intent) && Target(es[..k], intent) == Some(channel)
  {
    ClosedIff(es, channel);
    SendWasRead(es, intent, channel);
  }

  lemma {:induction false} ClosedIff(es: seq<Event>, channel: nat)
    requires Enables(EMPTY, es)
    ensures channel in Run(EMPTY, es).rt.closed <==> Do(CloseChannel(channel)) in es
  {
    if es == [] {
    } else {
      RunLast(es);
      ClosedIff(es[..|es| - 1], channel);
      assert es == es[..|es| - 1] + [es[|es| - 1]];
    }
  }

  lemma {:induction false} SendWasRead(es: seq<Event>, intent: nat, channel: nat)
    requires Enables(EMPTY, es) && Sending(intent, channel) in Run(EMPTY, es).rt.sends
    ensures exists k :: 0 <= k < |es| && es[k] == Read(intent) && Target(es[..k], intent) == Some(channel)
  {
    var n := |es| - 1;
    if es == [] {
    } else {
      RunLast(es);
      if Sending(intent, channel) in Run(EMPTY, es[..n]).rt.sends {
        SendWasRead(es[..n], intent, channel);
        var k :| 0 <= k < n && es[..n][k] == Read(intent) && Target(es[..n][..k], intent) == Some(channel);
        assert es[..n][..k] == es[..k];
        assert es[k] == Read(intent);
      } else {
        OutputIsTarget(es[..n], intent);
        assert es[n] == Read(intent);
      }
    }
  }

  // ---------------------------------------------------------------- who is registered, what is pending

  datatype Side = Intents | Interests

  datatype Standing = Registered | Open

  predicate Stands(c: Cell, side: Side, n: nat, standing: Standing) {
    match standing
    case Registered => (if side.Intents? then c.intent else c.interest) == Some(n)
    case Open => n in if side.Intents? then c.rt.openIntents else c.rt.openInterests
  }

  /** A registration that nobody refuses, where the side is free. */
  predicate Makes(c: Cell, e: Event, side: Side) {
    match side
    case Intents => e.Publish? && e.ok && c.intent.None?
    case Interests => e.Subscribe? && e.ok && c.interest.None?
  }

  predicate Drops(e: Event, side: Side) {
    e.Do? && (if side.Intents? then e.task.RemoveIntent? else e.task.RemoveInterest?)
  }

  predicate Closes(e: Event, side: Side, n: nat) {
    e == if side.Intents? then CloseIntent(n) else CloseInterest(n)
  }

  /** Any removal from its side unregisters an object; only closing that object closes it. */
  predicate Loses(e: Event, side: Side, n: nat, standing: Standing) {
    if standing.Registered? then Drops(e, side) else Closes(e, side, n)
  }

  /** Step k makes the object n of that side, and no later step takes its standing. */
  ghost predicate MadeAndKept(es: seq<Event>, side: Side, n: nat, standing: Standing, k: nat)
    requires k < |es|
  {
    && Enables(EMPTY, es[..k]) && Makes(Run(EMPTY, es[..k]), es[k], side) && Run(EMPTY, es[..k]).rt.next == n
    && forall j | k < j < |es| :: !Loses(es[j], side, n, standing)
  }

  ghost predicate SomeMadeAndKept(es: seq<Event>, side: Side, n: nat, standing: Standing) {
    exists k :: 0 <= k < |es| && MadeAndKept(es, side, n, standing, k)
  }

  lemma StandsStep(c: Cell, e: Event, side: Side, n: nat, standing: Standing)
    requires Enabled(c, e)
    ensures Stands(Step(c, e), side, n, standing) <==>
              (Makes(c, e, side) && c.rt.next == n) || (Stands(c, side, n, standing) && !Loses(e, side, n, standing))
  {
    match e
    case Do(_) =>
    case _ =>
  }

  lemma MadeAndKeptNext(es: seq<Event>, side: Side, n: nat, standing: Standing)
    requires es != [] && Enables(EMPTY, es[..|es| - 1])
    ensures var last := |es| - 1;
            SomeMadeAndKept(es, side, n, standing) <==>
              || (Makes(Run(EMPTY, es[..last]), es[last], side) && Run(EMPTY, es[..last]).rt.next == n)
              || (SomeMadeAndKept(es[..last], side, n, standing) && !Loses(es[last], side, n, standing))
  {
    var last := |es| - 1;
    forall k | 0 <= k < last
      ensures MadeAndKept(es, side, n, standing, k) <==>
                MadeAndKept(es[..last], side, n, standing, k) && !Loses(es[last], side, n, standing)
    {
      assert es[..last][..k] == es[..k];
    }
    assert MadeAndKept(es, side, n, standing, last) <==>
        Makes(Run(EMPTY, es[..last]), es[last], side) && Run(EMPTY, es[..last]).rt.next == n;
  }

  /**
   In every run an object is the registered one exactly when a step made it while its side was
   free, and no removal has run since; it is open exactly when it was made so and not closed since.
   */
  lemma {:induction false} StandsIff(es: seq<Event>, side: Side, n: nat, standing: Standing)
    requires Enables(EMPTY, es)
    ensures Stands(Run(EMPTY, es), side, n, standing) <==> SomeMadeAndKept(es, side, n, standing)
  {
    if es == [] {
    } else {
      RunLast(es);
      StandsIff(es[..|es| - 1], side, n, standing);
      StandsStep(Run(EMPTY, es[..|es| - 1]), es[|es| - 1], side, n, standing);
      MadeAndKeptNext(es, side, n, standing);
    }
  }

  /** The goroutines that a step starts: both callbacks of a closed object, the joining and the closing of a link. */
  predicate Starts(c: Cell, e: Event, c': Cell, t: Task) {
    match t
    case Disconnect(i) => e == CloseIntent(i)
    case RemoveIntent(i) => e == CloseIntent(i)
    case RemoveInterest(i) => e == CloseInterest(i)
    case CloseChannel(i) => e == CloseInterest(i)
    case Connect(l) => c.link.None? && c'.link == Some(l)
    case Sever(l) => Drops(e, Interests) && c.interest.Some? && c.link == Some(l)
    case Forget(l) => Drops(e, Interests) && c.interest.Some? && c.link == Some(l)
  }

  /** Step k starts the goroutine, which does not run afterwards. */
  ghost predicate StartedAndWaits(es: seq<Event>, t: Task, k: nat)
    requires k < |es|
  {
    && Enables(EMPTY, es[..k]) && Enabled(Run(EMPTY, es[..k]), es[k])
    && Starts(Run(EMPTY, es[..k]), es[k], Step(Run(EMPTY, es[..k]), es[k]), t)
    && forall j | k < j < |es| :: es[j] != Do(t)
  }

  ghost predicate SomeStartedAndWaits(es: seq<Event>, t: Task) {
    exists k :: 0 <= k < |es| && StartedAndWaits(es, t, k)
  }

  lemma PendingStep(c: Cell, e: Event, t: Task)
    requires Enabled(c, e)
    ensures t in Step(c, e).rt.tasks <==> Starts(c, e, Step(c, e), t) || (t in c.rt.tasks && e != Do(t))
  {
    match e
    case Do(_) =>
    case _ =>
  }

  lemma StartedAndWaitsNext(es: seq<Event>, t: Task)
    requires es != [] && Enables(EMPTY, es[..|es| - 1]) && Enabled(Run(EMPTY, es[..|es| - 1]), es[|es| - 1])
    ensures var last := |es| - 1;
            SomeStartedAndWaits(es, t) <==>
              || Starts(Run(EMPTY, es[..last]), es[last], Step(Run(EMPTY, es[..last]), es[last]), t)
              || (SomeStartedAndWaits(es[..last], t) && es[last] != Do(t))
  {
    var last := |es| - 1;
    forall k | 0 <= k < last
      ensures StartedAndWaits(es, t, k) <==> StartedAndWaits(es[..last], t, k) && es[last] != Do(t)
    {
      assert es[..last][..k] == es[..k];
    }
    assert StartedAndWaits(es, t, last) <==>
        Starts(Run(EMPTY, es[..last]), es[last], Step(Run(EMPTY, es[..last]), es[last]), t);
  }

  /** In every run a goroutine is pending exactly when some step started it and it has not run since. */
  lemma {:induction false} PendingIff(es: seq<Event>, t: Task)
    requires Enables(EMPTY, es)
    ensures t in Run(EMPTY, es).rt.tasks <==> SomeStartedAndWaits(es, t)
  {
    if es == [] {
    } else {
      RunLast(es);
      PendingIff(es[..|es| - 1], t);
      PendingStep(Run(EMPTY, es[..|es| - 1]), es[|es| - 1], t);
      StartedAndWaitsNext(es, t);
    }
  }

  /** A registered object is open, or about to be removed. */
  predicate OpenOrLeaving(c: Cell) {
    && (c.intent.Some? ==> c.intent.value in c.rt.openIntents || RemoveIntent(c.intent.value) in c.rt.tasks)
    && (c.interest.Some? ==> c.interest.value in c.rt.openInterests || RemoveInterest(c.interest.value) in c.rt.tasks)
  }

  lemma {:induction false} OpenOrLeavingInEveryRun(c: Cell, es: seq<Event>)
    requires OpenOrLeaving(c) && Enables(c, es)
    ensures OpenOrLeaving(Run(c, es))
    decreases |es|
  {
    if es == [] {
    } else {
      OpenOrLeavingInEveryRun(Step(c, es[0]), es[1..]);
    }
  }

  /** So once the goroutines of the route are done, no closed object is registered. */
  lemma DoneLeavesOnlyOpen(es: seq<Event>)
    requires Enables(EMPTY, es) && Run(EMPTY, es).rt.tasks == {}
    ensures var c := Run(EMPTY, es);
            && (c.intent.Some? ==> c.intent.value in c.rt.openIntents)
            && (c.interest.Some? ==> c.interest.value in c.rt.openInterests)
  {
    OpenOrLeavingInEveryRun(EMPTY, es);
  }

  // ---------------------------------------------------------------- disorderly runs

  lemma RunCons(c: Cell, e: Event, es: seq<Event>)
    requires Enabled(c, e) && Enables(Step(c, e), es)
    ensures Enables(c, [e] + es) && Run(c, [e] + es) == Run(Step(c, e), es)
  {
  }

  const FIRST := Link(2, 0, 1)
  const SECOND := Link(4, 0, 3)

  /** Linked, connected, and the interest gone while the callbacks of its link are pending. */
  const UNFINISHED := Cell(Some(0), None, None,
    Runtime(map[0 := 1], {0}, {}, {Sever(FIRST), Forget(FIRST), CloseChannel(1)}, 3, false, {}, {}))

  lemma UnfinishedIsReachable()
    ensures var es := [Publish(true, true), Subscribe(true, true), Do(Connect(FIRST)), CloseInterest(1), Do(RemoveInterest(1))];
            Enables(EMPTY, es) && OrderlyRun(EMPTY, es) && Run(EMPTY, es) == UNFINISHED
  {
    var c1 := Step(EMPTY, Publish(true, true));
    var c2 := Step(c1, Subscribe(true, true));
    var c3 := Step(c2, Do(Connect(FIRST)));
    var c4 := Step(c3, CloseInterest(1));
    var c5 := Step(c4, Do(RemoveInterest(1)));
    assert c2.rt.tasks == {Connect(FIRST)} && c3.rt.tasks == {};
    assert c3.rt.output == map[0 := 1] && c3.rt.openInterests == {1};
    assert c4.rt.tasks == {RemoveInterest(1), CloseChannel(1)};
    assert c5.rt.tasks == {Sever(FIRST), Forget(FIRST), CloseChannel(1)};
    assert c5.rt.openInterests == {};
    OrderlyCons(c4, Do(RemoveInterest(1)), []);
    OrderlyCons(c3, CloseInterest(1), [Do(RemoveInterest(1))]);
    OrderlyCons(c2, Do(Connect(FIRST)), [CloseInterest(1), Do(RemoveInterest(1))]);
    OrderlyCons(c1, Subscribe(true, true), [Do(Connect(FIRST)), CloseInterest(1), Do(RemoveInterest(1))]);
    OrderlyCons(EMPTY, Publish(true, true), [Subscribe(true, true), Do(Connect(FIRST)), CloseInterest(1), Do(RemoveInterest(1))]);
  }

  lemma OrderlyCons(c: Cell, e: Event, es: seq<Event>)
    requires Enabled(c, e) && Enables(Step(c, e), es) && Orderly(c, e) && OrderlyRun(Step(c, e), es)
    ensures Enables(c, [e] + es) && OrderlyRun(c, [e] + es) && Run(c, [e] + es) == Run(Step(c, e), es)
  {
    assert ([e] + es)[1..] == es;
  }

  /** Either pending task may be the only one: here the interest is removed and its link not yet severed. */
  lemma ClosedBeforeSevered()
    ensures var es := [Do(CloseChannel(1))];
            && Enables(UNFINISHED, es) && OrderlyRun(UNFINISHED, es)
            && SendsToClosed(Run(UNFINISHED, es)) && RemoveInterest(1) !in Run(UNFINISHED, es).rt.tasks
  {
    OrderlyCons(UNFINISHED, Do(CloseChannel(1)), []);
  }

  /** Subscribing again before those callbacks have run points the intent at two channels. */
  lemma HastyRegistrationPanics()
    ensures var es := [Subscribe(true, true), Do(Connect(SECOND))];
            Enables(UNFINISHED, es) && Run(UNFINISHED, es).rt.panicked
  {
    var c1 := Step(UNFINISHED, Subscribe(true, true));
    assert Connect(SECOND) in c1.rt.tasks;
    RunCons(c1, Do(Connect(SECOND)), []);
    RunCons(UNFINISHED, Subscribe(true, true), [Do(Connect(SECOND))]);
  }

  /** Or lets the old link's callback drop the new link's entry: both registered, not linked. */
  lemma StaleCallbackUnlinks()
    ensures var es := [Subscribe(true, true), Do(Forget(FIRST))];
            && Enables(UNFINISHED, es)
            && var c := Run(UNFINISHED, es); c.intent.Some? && c.interest.Some? && c.link.None?
  {
    var c1 := Step(UNFINISHED, Subscribe(true, true));
    RunCons(c1, Do(Forget(FIRST)), []);
    RunCons(UNFINISHED, Subscribe(true, true), [Do(Forget(FIRST))]);
  }

  /** Linked but not yet connected, and the interest gone. */
  const UNCONNECTED := Cell(Some(0), None, None,
    Runtime(map[], {0}, {}, {Connect(FIRST), Sever(FIRST), Forget(FIRST), CloseChannel(1)}, 3, false, {}, {}))

  lemma UnconnectedIsReachable()
    ensures var es := [Publish(true, true), Subscribe(true, true), CloseInterest(1), Do(RemoveInterest(1))];
            Enables(EMPTY, es) && OrderlyRun(EMPTY, es) && Run(EMPTY, es) == UNCONNECTED
  {
  }

  /**
   When the link is severed before its goroutine has connected it, the panic is reachable even
   though every goroutine of the route is done before the next registration.
   */
  lemma LateConnectPanics()
    ensures var es := [Do(CloseChannel(1)), Do(Sever(FIRST)), Do(Forget(FIRST)), Do(Connect(FIRST))];
            && Enables(UNCONNECTED, es)
            && var c := Run(UNCONNECTED, es);
            && c.rt.tasks == {}
            && var more := [Subscribe(true, true), Do(Connect(SECOND))];
               Enables(c, more) && Run(c, more).rt.panicked
  {
    var c0 := Step(UNCONNECTED, Do(CloseChannel(1)));
    var c1 := Step(c0, Do(Sever(FIRST)));
    var c2 := Step(c1, Do(Forget(FIRST)));
    var c3 := Step(c2, Do(Connect(FIRST)));
    assert c1.rt.tasks == {Connect(FIRST), Forget(FIRST)} && c2.rt.tasks == {Connect(FIRST)} && c3.rt.tasks == {};
    assert c1.rt.output == map[];
    RunCons(c2, Do(Connect(FIRST)), []);
    RunCons(c1, Do(Forget(FIRST)), [Do(Connect(FIRST))]);
    RunCons(c0, Do(Sever(FIRST)), [Do(Forget(FIRST)), Do(Connect(FIRST))]);
    RunCons(UNCONNECTED, Do(CloseChannel(1)), [Do(Sever(FIRST)), Do(Forget(FIRST)), Do(Connect(FIRST))]);
    var c4 := Step(c3, Subscribe(true, true));
    assert c3.rt.output == map[0 := 1] && Connect(SECOND) in c4.rt.tasks;
    RunCons(c4, Do(Connect(SECOND)), []);
    RunCons(c3, Subscribe(true, true), [Do(Connect(SECOND))]);
  }

  const SEND_ON_CLOSED :=
    [Publish(true, true), Subscribe(true, true), Do(Connect(FIRST)), CloseInterest(1), Do(CloseChannel(1)), Read(0)]

  /** Also in an orderly run: the interest's channel closes before its link is severed. */
  lemma SendOnClosedIsReachable()
    ensures var es := SEND_ON_CLOSED;
            && Enables(EMPTY, es) && OrderlyRun(EMPTY, es)
            && Enabled(Run(EMPTY, es), Put(0, 1)) && 1 in Run(EMPTY, es).rt.closed
  {
    var c1 := Step(EMPTY, Publish(true, true));
    var c2 := Step(c1, Subscribe(true, true));
    var c3 := Step(c2, Do(Connect(FIRST)));
    var c4 := Step(c3, CloseInterest(1));
    var c5 := Step(c4, Do(CloseChannel(1)));
    assert c2.rt.tasks == {Connect(FIRST)} && c3.rt.output == map[0 := 1] == c5.rt.output;
    var es := SEND_ON_CLOSED;
    OrderlyCons(c5, Read(0), []);
    assert es[5..] == [Read(0)] + [];
    OrderlyCons(c4, Do(CloseChannel(1)), es[5..]);
    assert es[4..] == [Do(CloseChannel(1))] + es[5..];
    OrderlyCons(c3, CloseInterest(1), es[4..]);
    assert es[3..] == [CloseInterest(1)] + es[4..];
    OrderlyCons(c2, Do(Connect(FIRST)), es[3..]);
    assert es[2..] == [Do(Connect(FIRST))] + es[3..];
    OrderlyCons(c1, Subscribe(true, true), es[2..]);
    assert es[1..] == [Subscribe(true, true)] + es[2..];
    OrderlyCons(EMPTY, Publish(true, true), es[1..]);
    assert es == [Publish(true, true)] + es[1..];
  }
}
