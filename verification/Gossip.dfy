/**
 A dialling and an accepting handshaker on a connection with matching schemes, their messages
 in FIFO order, and both address books busy with other connections meanwhile.
 */
module Gossip {
  import opened Addrbook
  import opened Handshake

  datatype Node = Node(shaker: Shaker, self: Peer, book: Book)

  /** `told` records the active peers of the other end's book at the moment it shared them. */
  datatype Side = Side(node: Node, inbox: seq<Message>, told: set<Peer>)

  datatype System = System(dialer: Side, acceptor: Side, hellos: nat, lists: nat, errors: nat)

  datatype Event =
    | Dial
    | ToDialer(ids: seq<Peer>)
    | ToAcceptor(ids: seq<Peer>)
    | DialerBook(other: Addrbook.Event)
    | AcceptorBook(other: Addrbook.Event)

  function ActiveIn(b: Book): set<Peer> {
    set k | k in b && b[k].Active() :: b[k].peer
  }

  /** The list that a greeting makes the node share is one listing of its active peers. */
  ghost predicate Lists(n: Node, m: Message, ids: seq<Peer>) {
    m.Hello? && n.shaker.phase.Wait? ==> ListsActive(WithConn(n.book, n.self, m.me, false, true), m.me, ids)
  }

  /** A book event other than sharing with this partner, over another connection to it. */
  predicate Elsewhere(e: Addrbook.Event, partner: Peer) {
    e.DoShare? ==> e.remote.addr != partner.addr
  }

  ghost predicate Takes(side: Side, ids: seq<Peer>) {
    !side.node.shaker.closed && side.inbox != [] && Lists(side.node, side.inbox[0], ids)
  }

  ghost predicate Enabled(s: System, e: Event) {
    match e
    case Dial => s.dialer.node.shaker.phase.Init?
    case ToDialer(ids) => Takes(s.dialer, ids)
    case ToAcceptor(ids) => Takes(s.acceptor, ids)
    case DialerBook(o) => Elsewhere(o, s.acceptor.node.self)
    case AcceptorBook(o) => Elsewhere(o, s.dialer.node.self)
  }

  function Count(ms: seq<Message>, hello: bool): nat {
    if ms == [] then 0 else (if ms[0].Hello? == hello then 1 else 0) + Count(ms[1..], hello)
  }

  /** The node that handles a message, and what it tells the other. A handler's error ends the node's connection. */
  function Receive(from: Side, to: Side, ids: seq<Peer>): (Side, Side, Handled)
    requires to.inbox != []
  {
    var m, n := to.inbox[0], to.node;
    var r := OnMessage(n.shaker, n.self, n.book, m, ids);
    var shares := Count(r.sent, false) > 0;
    (Side(from.node, from.inbox + r.sent,
          if shares && m.Hello? then ActiveIn(WithConn(n.book, n.self, m.me, false, true)) else from.told),
     Side(Node(if r.error.Nil? then r.shaker else r.shaker.(closed := true), n.self, r.book), to.inbox[1..], to.told), r)
  }

  function Step(s: System, e: Event): System
    requires match e case ToDialer(_) => s.dialer.inbox != [] case ToAcceptor(_) => s.acceptor.inbox != [] case _ => true
  {
    match e
    case Dial =>
      var n := s.dialer.node;
      var r := Handshake.Start(n.shaker, n.self, n.book, true);
      s.(dialer := s.dialer.(node := Node(r.shaker, n.self, r.book)),
         acceptor := s.acceptor.(inbox := s.acceptor.inbox + r.sent), hellos := s.hellos + Count(r.sent, true))
    case ToDialer(ids) =>
      var (a, d, r) := Receive(s.acceptor, s.dialer, ids);
      System(d, a, s.hellos + Count(r.sent, true), s.lists + Count(r.sent, false), s.errors + if r.error.Nil? then 0 else 1)
    case ToAcceptor(ids) =>
      var (d, a, r) := Receive(s.dialer, s.acceptor, ids);
      System(d, a, s.hellos + Count(r.sent, true), s.lists + Count(r.sent, false), s.errors + if r.error.Nil? then 0 else 1)
    case DialerBook(o) =>
      var n := s.dialer.node;
      s.(dialer := s.dialer.(node := n.(book := Addrbook.Step(n.book, n.self, o))))
    case AcceptorBook(o) =>
      var n := s.acceptor.node;
      s.(acceptor := s.acceptor.(node := n.(book := Addrbook.Step(n.book, n.self, o))))
  }

  ghost predicate Enables(s: System, es: seq<Event>)
    decreases |es|
  {
    es == [] || (Enabled(s, es[0]) && Enables(Step(s, es[0]), es[1..]))
  }

  ghost function Run(s: System, es: seq<Event>): System
    requires Enables(s, es)
    decreases |es|
  {
    if es == [] then s else Run(Step(s, es[0]), es[1..])
  }

  /** No connection to the partner that has been used for sharing. */
  predicate Fresh(b: Book, partner: Peer) {
    partner.addr in b ==> !b[partner.addr].connected || b[partner.addr].shared == {}
  }

  /** dialled: the address that was dialled; accepted: what the server knows about the caller. */
  function Initial(dialer: Peer, acceptor: Peer, dialled: Peer, accepted: Peer, dialerBook: Book, acceptorBook: Book): System {
    System(Side(Node(Shaker(Init, 0, dialled, dialled, false), dialer, dialerBook), [], {}),
           Side(Node(Shaker(Wait, 0, accepted, accepted, false), acceptor, acceptorBook), [], {}), 0, 0, 0)
  }

  predicate Matching(dialer: Peer, acceptor: Peer, dialled: Peer, accepted: Peer) {
    dialled.scheme == acceptor.scheme && accepted.scheme == dialer.scheme && !dialer.Equal(acceptor)
  }

  // ---------------------------------------------------------------- the exchange

  /** Where the exchange stands: the phases determine what is in flight and how much was sent. */
  predicate Shape(s: System) {
    var d, a := s.dialer, s.acceptor;
    match (d.node.shaker.phase, a.node.shaker.phase)
    case (Init, Wait) => d.inbox == [] && a.inbox == [] && s.hellos == 0 && s.lists == 0
    case (Wait, Wait) =>
      d.inbox == [] && |a.inbox| == 1 && a.inbox[0].Hello? && a.inbox[0].me == d.node.self && s.hellos == 1 && s.lists == 0
    case (Wait, Done) =>
      && a.inbox == [] && |d.inbox| == 2 && d.inbox[0].Hello? && d.inbox[0].me == a.node.self && d.inbox[1].Peers?
      && s.hellos == 2 && s.lists == 1
    case (Done, Done) =>
      && |d.inbox| <= 1 && (d.inbox != [] ==> d.inbox[0].Peers?)
      && |a.inbox| <= 2 && (|a.inbox| == 1 ==> a.inbox[0].Peers?)
      && (|a.inbox| == 2 ==> a.inbox[0].Hello? && a.inbox[0].me == d.node.self && a.inbox[1].Peers?)
      && s.hellos == 3 && s.lists == 2
    case _ => false
  }

  /** Nobody counts repeats, closes, or refuses a scheme. */
  predicate Healthy(s: System) {
    && s.errors == 0
    && s.dialer.node.shaker.count == 0 && s.acceptor.node.shaker.count == 0
    && !s.dialer.node.shaker.closed && !s.acceptor.node.shaker.closed
    && s.dialer.node.shaker.connPeer.scheme == s.acceptor.node.self.scheme
    && s.acceptor.node.shaker.connPeer.scheme == s.dialer.node.self.scheme
  }

  /** Protocol steps still to come. */
  function Remaining(s: System): nat {
    match (s.dialer.node.shaker.phase, s.acceptor.node.shaker.phase)
    case (Init, _) => 6
    case (Wait, Wait) => 5
    case (Wait, _) => 4
    case _ => |s.dialer.inbox| + |s.acceptor.inbox|
  }

  predicate Protocol(e: Event) {
    e.Dial? || e.ToDialer? || e.ToAcceptor?
  }

  lemma CountGreeting(h: Message, l: Message)
    requires h.Hello? && l.Peers?
    ensures Count([h, l], true) == 1 && Count([h, l], false) == 1
  {
    assert [h, l][1..] == [l] && [l][1..] == [];
    assert Count([], true) == 0 && Count([], false) == 0;
    assert Count([l], true) == 0 && Count([l], false) == 1;
  }

  lemma DialKeepsShape(s: System)
    requires Shape(s) && Healthy(s) && Enabled(s, Dial)
    ensures Shape(Step(s, Dial)) && Healthy(Step(s, Dial)) && Remaining(Step(s, Dial)) == Remaining(s) - 1
  {
    var n := s.dialer.node;
    var m := Hello(n.self, n.shaker.peer, Stage.Initial);
    assert [m][1..] == [] && Count([m], true) == 1;
  }

  lemma ToDialerKeepsShape(s: System, ids: seq<Peer>)
    requires Shape(s) && Healthy(s) && s.dialer.inbox != []
    ensures var s' := Step(s, ToDialer(ids)); Shape(s') && Healthy(s') && Remaining(s') == Remaining(s) - 1
  {
    CountGreeting(Hello(s.dialer.node.self, s.acceptor.node.self, Final), Peers(ids));
  }

  lemma ToAcceptorKeepsShape(s: System, ids: seq<Peer>)
    requires Shape(s) && Healthy(s) && s.acceptor.inbox != []
    ensures var s' := Step(s, ToAcceptor(ids)); Shape(s') && Healthy(s') && Remaining(s') == Remaining(s) - 1
  {
    CountGreeting(Hello(s.acceptor.node.self, s.dialer.node.self, Final), Peers(ids));
  }

  /** Every protocol step brings the end one step nearer, and book events do not touch the exchange. */
  lemma StepKeepsShape(s: System, e: Event)
    requires Shape(s) && Healthy(s) && Enabled(s, e)
    ensures Shape(Step(s, e)) && Healthy(Step(s, e))
    ensures Remaining(Step(s, e)) == Remaining(s) - if Protocol(e) then 1 else 0
  {
    match e
    case Dial => DialKeepsShape(s);
    case ToDialer(ids) => ToDialerKeepsShape(s, ids);
    case ToAcceptor(ids) => ToAcceptorKeepsShape(s, ids);
    case _ =>
  }

  // ---------------------------------------------------------------- what each book learns

  /** Everyone the node was told of is itself, in its book, or in a list still under way. */
  ghost predicate Learning(side: Side) {
    forall p | p in side.told ::
      || side.node.self.Equal(p) || p.addr in side.node.book
      || exists i :: 0 <= i < |side.inbox| && side.inbox[i].Peers? && p in side.inbox[i].ids
  }

  /** A node that still waits has told nothing yet. */
  predicate Untold(s: System) {
    && (!s.dialer.node.shaker.phase.Done? ==> s.acceptor.told == {})
    && (!s.acceptor.node.shaker.phase.Done? ==> s.dialer.told == {})
  }

  /** Until it has shared, the node's entry for its partner is free of shared peers. */
  ghost predicate Ready(n: Node, partner: Peer) {
    !n.shaker.phase.Done? ==> Fresh(n.book, partner)
  }

  ghost predicate Inv(s: System) {
    && Shape(s) && Healthy(s) && Untold(s) && !s.dialer.node.self.Equal(s.acceptor.node.self)
    && Learning(s.dialer) && Learning(s.acceptor)
    && Ready(s.dialer.node, s.acceptor.node.self) && Ready(s.acceptor.node, s.dialer.node.self)
  }

  lemma FreshSharesAll(n: Node, me: Peer, ids: seq<Peer>)
    requires Fresh(n.book, me) && !n.self.Equal(me)
    requires ListsActive(WithConn(n.book, n.self, me, false, true), me, ids)
    ensures forall p | p in ActiveIn(WithConn(n.book, n.self, me, false, true)) :: me.Equal(p) || p in ids
  {
  }

  /** Handling the first message of the inbox keeps what both sides learn. */
  lemma ReceiveKeepsLearning(from: Side, to: Side, ids: seq<Peer>)
    requires to.inbox != [] && Lists(to.node, to.inbox[0], ids) && Learning(from) && Learning(to)
    requires to.node.shaker.count == 0
    requires to.inbox[0].Hello? ==> to.inbox[0].me == from.node.self && !to.node.self.Equal(from.node.self)
    requires to.inbox[0].Hello? && to.node.shaker.phase.Wait? ==> from.told == {} && Fresh(to.node.book, from.node.self)
    requires to.inbox[0].Hello? && to.node.shaker.phase.Wait? ==> to.node.shaker.connPeer.scheme == from.node.self.scheme
    requires to.inbox[0].Peers? ==> to.node.shaker.phase.Done?
    ensures var (from', to', r) := Receive(from, to, ids); Learning(from') && Learning(to')
  {
    var m, n := to.inbox[0], to.node;
    var (from', to', r) := Receive(from, to, ids);
    if m.Peers? {
      AddPeersKeeps(n.book, n.self, true, m.ids);
      StillLearning(to, to');
      assert from'.inbox == from.inbox;
    } else {
      HelloKeepsBook(n, m.me, ids);
      StillLearning(to, to');
      if n.shaker.phase.Wait? {
        FreshSharesAll(n, m.me, ids);
        CountGreeting(Hello(n.self, m.me, Final), Peers(ids));
        assert from'.inbox[|from.inbox| + 1] == Peers(ids);
      } else {
        assert from'.inbox == from.inbox;
      }
    }
  }

  lemma HelloKeepsBook(n: Node, me: Peer, ids: seq<Peer>)
    ensures forall k | k in n.book :: k in OnHello(n.shaker, n.self, n.book, From(me), ids, 2).book
  {
  }

  lemma StillLearning(to: Side, to': Side)
    requires Learning(to) && to.inbox != [] && to'.inbox == to.inbox[1..] && to'.told == to.told
    requires to'.node.self == to.node.self && forall k | k in to.node.book :: k in to'.node.book
    requires to.inbox[0].Peers? ==> forall p | p in to.inbox[0].ids :: to.node.self.Equal(p) || p.addr in to'.node.book
    ensures Learning(to')
  {
  }

  lemma BookEventKeeps(side: Side, partner: Peer, o: Addrbook.Event)
    requires Learning(side) && Ready(side.node, partner) && Elsewhere(o, partner)
    ensures var n := side.node.(book := Addrbook.Step(side.node.book, side.node.self, o));
            Learning(side.(node := n)) && Ready(n, partner)
  {
    Addrbook.StepKeeps(side.node.book, side.node.self, o);
    if o.DoAddPeers? && !side.node.shaker.phase.Done? {
      AddPeersFresh(side.node.book, side.node.self, partner, o.outbound, o.ps);
    }
  }

  lemma {:induction false} AddPeersFresh(b: Book, self: Peer, partner: Peer, outbound: bool, ps: seq<Peer>)
    requires Fresh(b, partner)
    ensures Fresh(WithPeers(b, self, outbound, ps), partner)
  {
    if ps == [] {
    } else {
      AddPeersFresh(b, self, partner, outbound, ps[..|ps| - 1]);
    }
  }

  lemma DialKeepsInv(s: System)
    requires Inv(s) && Enabled(s, Dial)
    ensures Inv(Step(s, Dial))
  {
    StepKeepsShape(s, Dial);
    var d, d' := s.dialer, Step(s, Dial).dialer;
    assert forall k | k in d.node.book :: k in d'.node.book;
    assert d'.told == d.told && d'.inbox == d.inbox;
  }

  lemma StepKeepsInv(s: System, e: Event)
    requires Inv(s) && Enabled(s, e)
    ensures Inv(Step(s, e))
  {
    StepKeepsShape(s, e);
    match e
    case Dial => DialKeepsInv(s);
    case ToDialer(ids) => ReceiveKeepsLearning(s.acceptor, s.dialer, ids);
    case ToAcceptor(ids) => ReceiveKeepsLearning(s.dialer, s.acceptor, ids);
    case DialerBook(o) => BookEventKeeps(s.dialer, s.acceptor.node.self, o);
    case AcceptorBook(o) => BookEventKeeps(s.acceptor, s.dialer.node.self, o);
  }

  lemma {:induction false} RunKeepsInv(s: System, es: seq<Event>)
    requires Inv(s) && Enables(s, es)
    ensures Inv(Run(s, es)) && Remaining(Run(s, es)) + ProtocolSteps(es) == Remaining(s)
    ensures Run(s, es).dialer.node.self == s.dialer.node.self && Run(s, es).acceptor.node.self == s.acceptor.node.self
    decreases |es|
  {
    if es == [] {
    } else {
      StepKeepsInv(s, es[0]);
      StepKeepsShape(s, es[0]);
      RunKeepsInv(Step(s, es[0]), es[1..]);
    }
  }

  function ProtocolSteps(es: seq<Event>): nat {
    if es == [] then 0 else (if Protocol(es[0]) then 1 else 0) + ProtocolSteps(es[1..])
  }

  lemma {:induction false} ListingExists(b: Book, remote: Peer, keys: set<string>) returns (ps: seq<Peer>)
    requires keys <= b.Keys
    ensures forall k | k in keys && Offered(b, remote, k) :: b[k].peer in ps
    ensures forall p | p in ps :: exists k :: k in b && Offered(b, remote, k) && b[k].peer == p
  {
    if keys == {} {
      ps := [];
    } else {
      var k :| k in keys;
      ps := ListingExists(b, remote, keys - {k});
      if Offered(b, remote, k) {
        ps := ps + [b[k].peer];
      }
    }
  }

  /** While steps remain, one of them can be taken. */
  lemma CanContinue(s: System) returns (e: Event)
    requires Shape(s) && Healthy(s) && Remaining(s) > 0
    ensures Protocol(e) && Enabled(s, e)
  {
    if s.dialer.node.shaker.phase.Init? {
      e := Dial;
    } else if s.acceptor.inbox != [] {
      var n, m := s.acceptor.node, s.acceptor.inbox[0];
      var ids := [];
      if m.Hello? && n.shaker.phase.Wait? {
        var b := WithConn(n.book, n.self, m.me, false, true);
        ids := ListingExists(b, m.me, b.Keys);
      }
      e := ToAcceptor(ids);
    } else {
      var n, m := s.dialer.node, s.dialer.inbox[0];
      var ids := [];
      if m.Hello? && n.shaker.phase.Wait? {
        var b := WithConn(n.book, n.self, m.me, false, true);
        ids := ListingExists(b, m.me, b.Keys);
      }
      e := ToDialer(ids);
    }
  }

  /**
   Any interleaving of a dialer and an acceptor with matching schemes: no message is refused,
   no repeat is counted, and there are never more than six protocol steps. After the sixth, and
   only then, both are done, with three greetings and two lists sent, and each book holds every
   peer that was active in the other's when it shared, except itself.
   */
  lemma HandshakeCompletes(dialer: Peer, acceptor: Peer, dialled: Peer, accepted: Peer,
                           dialerBook: Book, acceptorBook: Book, es: seq<Event>)
    requires Matching(dialer, acceptor, dialled, accepted)
    requires Fresh(dialerBook, acceptor) && Fresh(acceptorBook, dialer)
    requires Enables(Initial(dialer, acceptor, dialled, accepted, dialerBook, acceptorBook), es)
    ensures var s := Run(Initial(dialer, acceptor, dialled, accepted, dialerBook, acceptorBook), es);
            && s.errors == 0 && !s.dialer.node.shaker.closed && !s.acceptor.node.shaker.closed
            && s.dialer.node.shaker.count == 0 && s.acceptor.node.shaker.count == 0
            && s.hellos <= 3 && s.lists <= 2 && ProtocolSteps(es) <= 6
            && (ProtocolSteps(es) == 6 <==>
                  && s.dialer.node.shaker.phase.Done? && s.acceptor.node.shaker.phase.Done?
                  && s.dialer.inbox == [] && s.acceptor.inbox == [])
            && (ProtocolSteps(es) == 6 ==>
                  && s.hellos == 3 && s.lists == 2
                  && (forall p | p in s.dialer.told :: dialer.Equal(p) || p.addr in s.dialer.node.book)
                  && (forall p | p in s.acceptor.told :: acceptor.Equal(p) || p.addr in s.acceptor.node.book))
  {
    RunKeepsInv(Initial(dialer, acceptor, dialled, accepted, dialerBook, acceptorBook), es);
  }

  // ---------------------------------------------------------------- each book's own run

  function SideAt(s: System, dialing: bool): Side {
    if dialing then s.dialer else s.acceptor
  }

  /** What handling a message does to the node's book, as book events. */
  function Handles(n: Node, m: Message, ids: seq<Peer>): seq<Addrbook.Event> {
    match m
    case Hello(me, _, _) => if n.shaker.phase.Wait? then [DoAddConn(me, false, true), DoShare(me, ids)] else []
    case Peers(told) => [DoAddPeers(true, told)]
  }

  function Does(s: System, e: Event, dialing: bool): seq<Addrbook.Event>
    requires match e case ToDialer(_) => s.dialer.inbox != [] case ToAcceptor(_) => s.acceptor.inbox != [] case _ => true
  {
    match e
    case Dial => if dialing then [DoAddConn(s.dialer.node.shaker.peer, true, true)] else []
    case ToDialer(ids) => if dialing then Handles(s.dialer.node, s.dialer.inbox[0], ids) else []
    case ToAcceptor(ids) => if dialing then [] else Handles(s.acceptor.node, s.acceptor.inbox[0], ids)
    case DialerBook(o) => if dialing then [o] else []
    case AcceptorBook(o) => if dialing then [] else [o]
  }

  ghost function BookEvents(s: System, es: seq<Event>, dialing: bool): seq<Addrbook.Event>
    requires Enables(s, es)
    decreases |es|
  {
    if es == [] then [] else Does(s, es[0], dialing) + BookEvents(Step(s, es[0]), es[1..], dialing)
  }

  lemma RunOne(b: Book, self: Peer, e: Addrbook.Event)
    ensures Addrbook.Run(b, self, [e]) == Addrbook.Step(b, self, e)
  {
    assert [e][..0] == [];
  }

  lemma RunTwo(b: Book, self: Peer, e: Addrbook.Event, f: Addrbook.Event)
    ensures Addrbook.Run(b, self, [e, f]) == Addrbook.Step(Addrbook.Step(b, self, e), self, f)
  {
    assert [e, f][..1] == [e];
    RunOne(b, self, e);
  }

  lemma {:induction false} RunAppend(b: Book, self: Peer, past: seq<Addrbook.Event>, more: seq<Addrbook.Event>)
    ensures Addrbook.Run(b, self, past + more) == Addrbook.Run(Addrbook.Run(b, self, past), self, more)
  {
    if more == [] {
      assert past + more == past;
    } else {
      var n := |more| - 1;
      RunAppend(b, self, past, more[..n]);
      assert (past + more)[..|past| + n] == past + more[..n];
    }
  }

  /** The list was made right after the partner's connection was recorded, of all that were active then. */
  ghost predicate ToldAt(told: set<Peer>, b: Book, self: Peer, partner: Peer, past: seq<Addrbook.Event>, k: nat)
    requires k + 1 < |past|
  {
    && past[k] == DoAddConn(partner, false, true) && past[k + 1].DoShare?
    && told == ActiveIn(Addrbook.Run(b, self, past[..k + 1]))
  }

  ghost predicate Told(told: set<Peer>, b: Book, self: Peer, partner: Peer, past: seq<Addrbook.Event>) {
    exists k :: 0 <= k < |past| - 1 && ToldAt(told, b, self, partner, past, k)
  }

  /** past is what has happened to the side's book since it was b. */
  ghost predicate Past(s: System, dialing: bool, b: Book, past: seq<Addrbook.Event>) {
    var side, other := SideAt(s, dialing), SideAt(s, !dialing);
    && side.node.book == Addrbook.Run(b, side.node.self, past)
    && (side.node.shaker.phase.Done? ==> Told(other.told, b, side.node.self, other.node.self, past))
  }

  lemma ToldOn(told: set<Peer>, b: Book, self: Peer, partner: Peer, past: seq<Addrbook.Event>, more: seq<Addrbook.Event>)
    requires Told(told, b, self, partner, past)
    ensures Told(told, b, self, partner, past + more)
  {
    var k :| 0 <= k < |past| - 1 && ToldAt(told, b, self, partner, past, k);
    assert (past + more)[..k + 1] == past[..k + 1];
    assert ToldAt(told, b, self, partner, past + more, k);
  }

  lemma ToldNow(b: Book, self: Peer, partner: Peer, past: seq<Addrbook.Event>, ids: seq<Peer>)
    ensures var met := WithConn(Addrbook.Run(b, self, past), self, partner, false, true);
            Told(ActiveIn(met), b, self, partner, past + [DoAddConn(partner, false, true), DoShare(partner, ids)])
  {
    var add := DoAddConn(partner, false, true);
    var all := past + [add, DoShare(partner, ids)];
    RunAppend(b, self, past, [add]);
    RunOne(Addrbook.Run(b, self, past), self, add);
    assert all[..|past| + 1] == past + [add];
    assert ToldAt(ActiveIn(WithConn(Addrbook.Run(b, self, past), self, partner, false, true)), b, self, partner, all, |past|);
  }

  /** One step's book events account for the step's change of the book. */
  lemma DoesRuns(s: System, e: Event, dialing: bool)
    requires Inv(s) && Enabled(s, e)
    ensures var side := SideAt(s, dialing);
            && SideAt(Step(s, e), dialing).node.self == side.node.self
            && SideAt(Step(s, e), dialing).node.book == Addrbook.Run(side.node.book, side.node.self, Does(s, e, dialing))
  {
    var side := SideAt(s, dialing);
    var does := Does(s, e, dialing);
    if |does| == 1 {
      assert does == [does[0]];
      RunOne(side.node.book, side.node.self, does[0]);
    } else if |does| == 2 {
      assert does == [does[0], does[1]];
      RunTwo(side.node.book, side.node.self, does[0], does[1]);
    }
  }

  /** A side gets done in the step that handles the greeting and shares. */
  lemma GettingDone(s: System, e: Event, dialing: bool)
    requires Inv(s) && Enabled(s, e)
    requires !SideAt(s, dialing).node.shaker.phase.Done? && SideAt(Step(s, e), dialing).node.shaker.phase.Done?
    ensures var n, partner, does := SideAt(s, dialing).node, SideAt(s, !dialing).node.self, Does(s, e, dialing);
            && (e.ToDialer? || e.ToAcceptor?) && does == [DoAddConn(partner, false, true), DoShare(partner, e.ids)]
            && SideAt(Step(s, e), !dialing).told == ActiveIn(WithConn(n.book, n.self, partner, false, true))
  {
    var n, partner := SideAt(s, dialing).node, SideAt(s, !dialing).node.self;
    CountGreeting(Hello(n.self, partner, Final), Peers(e.ids));
  }

  lemma StepKeepsPast(s: System, e: Event, dialing: bool, b: Book, past: seq<Addrbook.Event>)
    requires Inv(s) && Enabled(s, e) && Past(s, dialing, b, past)
    ensures Past(Step(s, e), dialing, b, past + Does(s, e, dialing))
  {
    var side, other, does := SideAt(s, dialing), SideAt(s, !dialing), Does(s, e, dialing);
    DoesRuns(s, e, dialing);
    RunAppend(b, side.node.self, past, does);
    if side.node.shaker.phase.Done? {
      ToldOn(other.told, b, side.node.self, other.node.self, past, does);
    } else if SideAt(Step(s, e), dialing).node.shaker.phase.Done? {
      GettingDone(s, e, dialing);
      ToldNow(b, side.node.self, other.node.self, past, e.ids);
    }
  }

  lemma BookEventsFirst(s: System, es: seq<Event>, dialing: bool, past: seq<Addrbook.Event>)
    requires Enables(s, es) && es != []
    ensures (past + Does(s, es[0], dialing)) + BookEvents(Step(s, es[0]), es[1..], dialing)
         == past + BookEvents(s, es, dialing)
  {
  }

  lemma {:induction false} RunKeepsPast(s: System, es: seq<Event>, dialing: bool, b: Book, past: seq<Addrbook.Event>)
    requires Inv(s) && Enables(s, es) && Past(s, dialing, b, past)
    ensures Past(Run(s, es), dialing, b, past + BookEvents(s, es, dialing))
    decreases |es|
  {
    if es == [] {
      assert past + [] == past;
    } else {
      StepKeepsInv(s, es[0]);
      StepKeepsPast(s, es[0], dialing, b, past);
      RunKeepsPast(Step(s, es[0]), es[1..], dialing, b, past + Does(s, es[0], dialing));
      BookEventsFirst(s, es, dialing, past);
    }
  }

  /**
   In every run of a matching exchange each book is the run of its own events, so what it says of any
   connection is decided by them; and a side that is done has told the other of exactly the peers
   that were active when it had recorded their connection.
   */
  lemma BooksFollowTheirEvents(dialer: Peer, acceptor: Peer, dialled: Peer, accepted: Peer, b: Book, b': Book,
                               es: seq<Event>, dialing: bool)
    requires Matching(dialer, acceptor, dialled, accepted) && Fresh(b, acceptor) && Fresh(b', dialer)
    requires Enables(Initial(dialer, acceptor, dialled, accepted, b, b'), es)
    ensures var start := Initial(dialer, acceptor, dialled, accepted, b, b');
            Past(Run(start, es), dialing, if dialing then b else b', BookEvents(start, es, dialing))
  {
    var start := Initial(dialer, acceptor, dialled, accepted, b, b');
    RunKeepsPast(start, es, dialing, if dialing then b else b', []);
    assert [] + BookEvents(start, es, dialing) == BookEvents(start, es, dialing);
  }

  /** Nobody has disconnected this address since the k-th event. */
  predicate Undisturbed(past: seq<Addrbook.Event>, k: nat, addr: string) {
    forall j | k < j < |past| :: past[j] != DoDisconnect(addr)
  }

  ghost predicate ConnectedSince(self: Peer, past: seq<Addrbook.Event>, k: nat, addr: string) {
    exists m :: k <= m < |past| && Connects(self, past[m], addr) && Undisturbed(past, m, addr)
  }

  /** Once connected to, an address is connected exactly when a connection came after the last disconnection. */
  lemma ConnectedSinceIff(b: Book, self: Peer, past: seq<Addrbook.Event>, k: nat, addr: string)
    requires k < |past| && Connects(self, past[k], addr)
    ensures Holds(Addrbook.Run(b, self, past), addr, Connected) <==> ConnectedSince(self, past, k, addr)
  {
    FactIff(b, self, past, addr, Connected);
    forall m | 0 <= m < |past| ensures Undisturbed(past, m, addr) <==> !LostIn(b, self, past, addr, Connected, m + 1) {
      forall j | m < j < |past| ensures LostAt(b, self, past, addr, Connected, j) <==> past[j] == DoDisconnect(addr) {}
    }
    if Holds(Addrbook.Run(b, self, past), addr, Connected) {
      if GainedAndKept(b, self, past, addr, Connected) {
        var m :| 0 <= m < |past| && GainedAt(b, self, past, addr, Connected, m);
        assert Undisturbed(past, if m < k then k else m, addr);
      } else {
        assert forall j | 0 <= j < |past| :: !LostAt(b, self, past, addr, Connected, j);
        assert Undisturbed(past, k, addr);
      }
    } else if ConnectedSince(self, past, k, addr) {
      var m :| k <= m < |past| && Connects(self, past[m], addr) && Undisturbed(past, m, addr);
      assert GainedAt(b, self, past, addr, Connected, m);
    }
  }

  lemma UndisturbedIsUp(b: Book, self: Peer, past: seq<Addrbook.Event>, k: nat, addr: string)
    requires k < |past| && Connects(self, past[k], addr)
    ensures Undisturbed(past, k, addr) ==> Holds(Addrbook.Run(b, self, past), addr, Connected)
  {
    ConnectedSinceIff(b, self, past, k, addr);
  }

  /**
   When a side is done it has its partner connected exactly when no disconnection of that address came
   after the last connection, which was made in the exchange or later; and of every address that it
   had connected to before it shared, and not disconnected by then, the partner was told.
   */
  lemma DoneIsConnected(dialer: Peer, acceptor: Peer, dialled: Peer, accepted: Peer, b: Book, b': Book,
                        es: seq<Event>, dialing: bool) returns (k: nat)
    requires Matching(dialer, acceptor, dialled, accepted) && Fresh(b, acceptor) && Fresh(b', dialer)
    requires Keyed(if dialing then b else b')
    requires Enables(Initial(dialer, acceptor, dialled, accepted, b, b'), es)
    requires SideAt(Run(Initial(dialer, acceptor, dialled, accepted, b, b'), es), dialing).node.shaker.phase.Done?
    ensures var start := Initial(dialer, acceptor, dialled, accepted, b, b');
            var past, end := BookEvents(start, es, dialing), Run(start, es);
            var side, other := SideAt(end, dialing), SideAt(end, !dialing);
            && k + 1 < |past| && past[k] == DoAddConn(other.node.self, false, true) && past[k + 1].DoShare?
            && (Holds(side.node.book, other.node.self.addr, Connected)
                <==> ConnectedSince(side.node.self, past, k, other.node.self.addr))
            && (forall j, addr | 0 <= j <= k && Connects(side.node.self, past[j], addr) && Undisturbed(past[..k + 1], j, addr) ::
                  exists p :: p in other.told && p.addr == addr)
  {
    var start := Initial(dialer, acceptor, dialled, accepted, b, b');
    var s, past, book := Run(start, es), BookEvents(start, es, dialing), if dialing then b else b';
    var side, other := SideAt(s, dialing), SideAt(s, !dialing);
    BooksFollowTheirEvents(dialer, acceptor, dialled, accepted, b, b', es, dialing);
    RunKeepsInv(start, es);
    k :| 0 <= k < |past| - 1 && ToldAt(other.told, book, side.node.self, other.node.self, past, k);
    ConnectedSinceIff(book, side.node.self, past, k, other.node.self.addr);
    var before := Addrbook.Run(book, side.node.self, past[..k + 1]);
    RunKeepsEntries(book, side.node.self, past[..k + 1]);
    forall j, addr | 0 <= j <= k && Connects(side.node.self, past[j], addr) && Undisturbed(past[..k + 1], j, addr)
      ensures exists p :: p in other.told && p.addr == addr
    {
      UndisturbedIsUp(book, side.node.self, past[..k + 1], j, addr);
      assert before[addr].peer in ActiveIn(before) && before[addr].peer.addr == addr;
    }
  }

  // ---------------------------------------------------------------- schemes that do not match

  /** Both sides are done and have shared their peers. */
  predicate Completed(s: System) {
    s.dialer.node.shaker.phase.Done? && s.acceptor.node.shaker.phase.Done? && s.lists == 2
  }

  /** Nothing is refused before a greeting, and the schemes that it is checked against are the initial ones. */
  predicate Unmet(side: Side, known: Peer) {
    && side.node.shaker.count == 0
    && (!side.node.shaker.phase.Done? ==> side.node.shaker.connPeer.scheme == known.scheme)
  }

  /** Where the exchange stands when one of the two schemes is not the expected one. */
  predicate Stuck(s: System, dialled: Peer, accepted: Peer) {
    var d, a := s.dialer, s.acceptor;
    && Unmet(d, dialled) && Unmet(a, accepted)
    && match (d.node.shaker.phase, a.node.shaker.phase)
       case (Init, Wait) => d.inbox == [] && a.inbox == [] && s.lists == 0
       case (Wait, Wait) =>
         d.inbox == [] && |a.inbox| == 1 && a.inbox[0].Hello? && a.inbox[0].me == d.node.self && s.lists == 0
       case (Wait, Done) =>
         && a.inbox == []
         && (if accepted.scheme != d.node.self.scheme then d.inbox == [] && s.lists == 0 && a.node.shaker.closed
             else |d.inbox| == 2 && d.inbox[0].Hello? && d.inbox[0].me == a.node.self && d.inbox[1].Peers? && s.lists == 1)
       case (Done, Done) =>
         && accepted.scheme == d.node.self.scheme
         && a.inbox == [] && |d.inbox| == 1 && d.inbox[0].Peers? && s.lists == 1 && d.node.shaker.closed
       case _ => false
  }

  lemma StuckStep(s: System, e: Event, dialled: Peer, accepted: Peer)
    requires Stuck(s, dialled, accepted) && Enabled(s, e)
    requires dialled.scheme != s.acceptor.node.self.scheme || accepted.scheme != s.dialer.node.self.scheme
    ensures Stuck(Step(s, e), dialled, accepted)
    ensures Step(s, e).dialer.node.self == s.dialer.node.self && Step(s, e).acceptor.node.self == s.acceptor.node.self
  {
    match e
    case Dial =>
      var m := Hello(s.dialer.node.self, s.dialer.node.shaker.peer, Stage.Initial);
      assert [m][1..] == [] && Count([m], false) == 0;
    case ToAcceptor(ids) =>
      CountGreeting(Hello(s.acceptor.node.self, s.dialer.node.self, Final), Peers(ids));
    case ToDialer(ids) =>
      assert Count([], false) == 0;
    case _ =>
  }

  lemma {:induction false} StuckRun(s: System, es: seq<Event>, dialled: Peer, accepted: Peer)
    requires Stuck(s, dialled, accepted) && Enables(s, es)
    requires dialled.scheme != s.acceptor.node.self.scheme || accepted.scheme != s.dialer.node.self.scheme
    ensures Stuck(Run(s, es), dialled, accepted)
    ensures Run(s, es).dialer.node.self == s.dialer.node.self && Run(s, es).acceptor.node.self == s.acceptor.node.self
    decreases |es|
  {
    if es == [] {
    } else {
      StuckStep(s, es[0], dialled, accepted);
      StuckRun(Step(s, es[0]), es[1..], dialled, accepted);
    }
  }

  /**
   A caller of another scheme than the server knows: in every run nobody shares, the dialer never
   gets past waiting, and the acceptor closes when it has met the caller.
   */
  lemma SchemeMismatchStops(dialer: Peer, acceptor: Peer, dialled: Peer, accepted: Peer, b: Book, b': Book, es: seq<Event>)
    requires accepted.scheme != dialer.scheme
    requires Enables(Initial(dialer, acceptor, dialled, accepted, b, b'), es)
    ensures var s := Run(Initial(dialer, acceptor, dialled, accepted, b, b'), es);
            && !s.dialer.node.shaker.phase.Done? && s.lists == 0 && s.dialer.inbox == []
            && (s.acceptor.node.shaker.phase.Done? ==> s.acceptor.inbox == [] && s.acceptor.node.shaker.closed)
  {
    StuckRun(Initial(dialer, acceptor, dialled, accepted, b, b'), es, dialled, accepted);
  }

  /** An answer of another scheme than was dialled: in every run only the acceptor shares, and the dialer closes when done. */
  lemma DialledMismatchIsOneSided(dialer: Peer, acceptor: Peer, dialled: Peer, accepted: Peer, b: Book, b': Book, es: seq<Event>)
    requires accepted.scheme == dialer.scheme && dialled.scheme != acceptor.scheme
    requires Enables(Initial(dialer, acceptor, dialled, accepted, b, b'), es)
    ensures var s := Run(Initial(dialer, acceptor, dialled, accepted, b, b'), es);
            && s.lists == (if s.acceptor.node.shaker.phase.Done? then 1 else 0)
            && (s.dialer.node.shaker.phase.Done? ==> s.acceptor.node.shaker.phase.Done? && s.dialer.node.shaker.closed)
            && forall i | 0 <= i < |s.acceptor.inbox| :: !s.acceptor.inbox[i].Peers?
  {
    StuckRun(Initial(dialer, acceptor, dialled, accepted, b, b'), es, dialled, accepted);
  }

  lemma {:induction false} RunKeepsShape(s: System, es: seq<Event>)
    requires Shape(s) && Healthy(s) && Enables(s, es)
    ensures Shape(Run(s, es)) && Healthy(Run(s, es))
    decreases |es|
  {
    if es == [] {
    } else {
      StepKeepsShape(s, es[0]);
      RunKeepsShape(Step(s, es[0]), es[1..]);
    }
  }

  /** From any point of an exchange with matching schemes, steps lead to its completion. */
  lemma {:induction false} CanComplete(s: System) returns (es: seq<Event>)
    requires Shape(s) && Healthy(s)
    ensures Enables(s, es) && Completed(Run(s, es))
    decreases Remaining(s)
  {
    if Remaining(s) == 0 {
      es := [];
    } else {
      var e := CanContinue(s);
      StepKeepsShape(s, e);
      var rest := CanComplete(Step(s, e));
      es := [e] + rest;
      assert es[1..] == rest;
    }
  }

  ghost predicate Completes(s: System, es: seq<Event>) {
    Enables(s, es) && Completed(Run(s, es))
  }

  ghost predicate Completable(s: System) {
    exists es :: Completes(s, es)
  }

  /** After any run whatever, the exchange can still be completed exactly when both schemes are the expected ones. */
  lemma CompletesIffSchemesMatch(dialer: Peer, acceptor: Peer, dialled: Peer, accepted: Peer, b: Book, b': Book, es: seq<Event>)
    requires Enables(Initial(dialer, acceptor, dialled, accepted, b, b'), es)
    ensures var s := Run(Initial(dialer, acceptor, dialled, accepted, b, b'), es);
            Completable(s) <==> dialled.scheme == acceptor.scheme && accepted.scheme == dialer.scheme
  {
    var start := Initial(dialer, acceptor, dialled, accepted, b, b');
    var s := Run(start, es);
    if dialled.scheme == acceptor.scheme && accepted.scheme == dialer.scheme {
      RunKeepsShape(start, es);
      var more := CanComplete(s);
      assert Completes(s, more);
    } else {
      StuckRun(start, es, dialled, accepted);
      forall more | Enables(s, more) ensures !Completed(Run(s, more)) {
        StuckRun(s, more, dialled, accepted);
      }
    }
  }
}
