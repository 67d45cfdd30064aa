/** The mesh handshake: its message handlers, which also carry peers from one address book to the other. */
module Handshake {
  import opened Addrbook
  import opened Wrappers

  datatype Stage = Initial | Final

  datatype Message =
    | Hello(me: Peer, you: Peer, stage: Stage)
    | Peers(ids: seq<Peer>)

  datatype Phase = Init | Wait | Exchange | Done

  datatype Error = Nil | Forbidden | BadArgument | BadPeer | WriteFailed

  /** `connPeer` is the connection's idea of the remote peer; only its scheme may not change. */
  datatype Shaker = Shaker(phase: Phase, count: nat, peer: Peer, connPeer: Peer, closed: bool)

  datatype Handled = Handled(shaker: Shaker, book: Book, sent: seq<Message>, pass: bool, error: Error)

  /** A handshake message as it arrives: of another type, with a peer text that does not parse, or well-formed. */
  datatype Greeting = Mistyped | Unparsable | From(me: Peer)

  /** A list of peers: of another type, or its entries up to the first that does not parse. */
  datatype Listing = MistypedList | Listed(ids: seq<Peer>, whole: bool)

  /** The dialling side starts, whether or not its greeting can be written; the accepting side only listens. */
  function Start(h: Shaker, self: Peer, book: Book, writes: bool): Handled {
    if h.phase.Init? then
      Handled(h.(phase := Wait), WithConn(book, self, h.peer, true, true),
              if writes then [Hello(self, h.peer, Initial)] else [], true, Nil)
    else Handled(h, book, [], true, Nil)
  }

  /** ids: the active peers, in the order in which the book is visited; written: how many writes work. */
  function OnHello(h: Shaker, self: Peer, book: Book, g: Greeting, ids: seq<Peer>, written: nat): Handled {
    if h.count + 1 > 5 then Handled(h.(count := h.count + 1, closed := true), book, [], false, Forbidden)
    else if g.Mistyped? then Handled(h.(count := h.count + 1), book, [], true, BadArgument)
    else
      match h.phase
      case Wait => OnMeeting(h.(count := 0, phase := Done), self, book, g, ids, written)
      case Done => Handled(h.(count := 0), book, [], true, Nil)
      case _ => Handled(h.(count := h.count + 1), book, [], false, Nil)
  }

  function OnMeeting(done: Shaker, self: Peer, book: Book, g: Greeting, ids: seq<Peer>, written: nat): Handled
    requires !g.Mistyped?
  {
    if g.Unparsable? then Handled(done, book, [], false, BadPeer)
    else if g.me.scheme != done.connPeer.scheme then Handled(done, book, [], false, BadArgument)
    else
      var shaken, met := done.(peer := g.me, connPeer := g.me), WithConn(book, self, g.me, false, true);
      if written == 0 then Handled(shaken, met, [], false, WriteFailed)
      else if written == 1 then Handled(shaken, met, [Hello(self, g.me, Final)], false, WriteFailed)
      else Handled(shaken, WithShared(met, g.me, ids), [Hello(self, g.me, Final), Peers(ids)], true, Nil)
  }

  function OnPeers(h: Shaker, self: Peer, book: Book, l: Listing): Handled {
    if !h.phase.Done? then Handled(h.(closed := true), book, [], false, Forbidden)
    else if l.MistypedList? then Handled(h, book, [], true, BadArgument)
    else Handled(h, WithPeers(book, self, true, l.ids), [], false, if l.whole then Nil else BadPeer)
  }

  /** A well-formed message on a connection that can be written to. */
  function OnMessage(h: Shaker, self: Peer, book: Book, m: Message, ids: seq<Peer>): Handled {
    match m
    case Hello(me, _, _) => OnHello(h, self, book, From(me), ids, 2)
    case Peers(told) => OnPeers(h, self, book, Listed(told, true))
  }

  /** The peers before the first text that does not parse. */
  function Parsed(texts: seq<Option<Peer>>): (ps: seq<Peer>)
    ensures |ps| <= |texts| && forall i | 0 <= i < |ps| :: texts[i] == Some(ps[i])
    ensures |ps| < |texts| ==> texts[|ps|].None?
  {
    if texts == [] || texts[0].None? then [] else [texts[0].value] + Parsed(texts[1..])
  }

  // ---------------------------------------------------------------- repeats, early lists, failed writes

  /** The handshaker after these greetings, with nothing to share and every write working. */
  function AfterAll(h: Shaker, self: Peer, book: Book, gs: seq<Greeting>): Shaker {
    if gs == [] then h
    else OnHello(AfterAll(h, self, book, gs[..|gs| - 1]), self, book, gs[|gs| - 1], [], 2).shaker
  }

  /** Greetings that lead nowhere: all to a side that has not started, or of another type. */
  predicate Repeats(h: Shaker, gs: seq<Greeting>) {
    h.phase.Init? || h.phase.Exchange? || forall i | 0 <= i < |gs| :: gs[i].Mistyped?
  }

  /** They are counted, and the sixth closes the connection. */
  lemma {:induction false} RepeatsCloseIff(h: Shaker, self: Peer, book: Book, gs: seq<Greeting>)
    requires Repeats(h, gs) && h.count == 0 && !h.closed
    ensures AfterAll(h, self, book, gs) == h.(count := |gs|, closed := |gs| > 5)
  {
    if gs == [] {
    } else {
      RepeatsCloseIff(h, self, book, gs[..|gs| - 1]);
    }
  }

  /** A greeting that gets a waiting side done, or that one that is done receives, clears the count. */
  lemma ProgressClearsCount(h: Shaker, self: Peer, book: Book, g: Greeting, ids: seq<Peer>, written: nat)
    requires h.count < 5 && !g.Mistyped? && (h.phase.Wait? || h.phase.Done?)
    ensures var r := OnHello(h, self, book, g, ids, written).shaker; r.count == 0 && r.phase.Done? && r.closed == h.closed
  {
  }

  /** A list of peers is taken exactly by a side that is done; any other closes and learns nothing. */
  lemma ListsOnlyWhenDone(h: Shaker, self: Peer, book: Book, l: Listing)
    requires !h.closed
    ensures var r := OnPeers(h, self, book, l);
            && (r.shaker.closed <==> !h.phase.Done?) && (r.error == Forbidden <==> !h.phase.Done?)
            && (!h.phase.Done? || l.MistypedList? ==> r.book == book)
            && (h.phase.Done? && l.Listed? ==>
                  && (forall p | p in l.ids :: self.Equal(p) || p.addr in r.book)
                  && (r.error == Nil <==> l.whole))
  {
    if l.Listed? { AddPeersKeeps(book, self, true, l.ids); }
  }

  /**
   Meeting a peer of the expected scheme connects it whatever becomes of the writes. Its list is on the
   wire, and remembered as shared, exactly when both writes work.
   */
  lemma SharedOnlyIfWritten(h: Shaker, self: Peer, book: Book, me: Peer, ids: seq<Peer>, written: nat)
    requires h.phase.Wait? && h.count < 5 && h.connPeer.scheme == me.scheme && !self.Equal(me)
    requires me.addr in book ==> !book[me.addr].connected
    ensures var r := OnHello(h, self, book, From(me), ids, written);
            && Holds(r.book, me.addr, Connected) && r.shaker.peer == me && r.shaker.connPeer == me
            && SharedWith(r.book, me) == (if written >= 2 then set p | p in ids else {})
            && (Peers(ids) in r.sent <==> written >= 2) && (Hello(self, me, Final) in r.sent <==> written >= 1)
            && (r.error == Nil <==> written >= 2) && (r.pass <==> written >= 2)
  {
  }

  class Handshaker {
    const book: AddressBook
    var phase: Phase
    var count: nat
    var peer: Peer
    var connPeer: Peer
    var closed: bool
    var sent: seq<Message>

    function View(): Shaker
      reads this
    {
      Shaker(phase, count, peer, connPeer, closed)
    }

    ghost predicate Did(out: seq<Message>, r: Handled, pass: bool, error: Error)
      reads this, book, book.peers.Values
    {
      View() == r.shaker && book.View() == r.book && sent == out + r.sent && pass == r.pass && error == r.error
    }

    constructor (book: AddressBook, peer: Peer, phase: Phase)
      ensures this.book == book && View() == Shaker(phase, 0, peer, peer, false) && sent == []
    {
      this.book, this.phase, this.peer, connPeer := book, phase, peer, peer;
      count, closed, sent := 0, false, [];
    }

    method Write(m: Message, works: bool) returns (ok: bool)
      modifies this`sent
      ensures ok == works && sent == old(sent) + if works then [m] else []
    {
      if works {
        sent := sent + [m];
      }
      return works;
    }

    method Init(writes: bool)
      requires book.Valid()
      modifies this, book, book.peers.Values
      ensures book.Valid()
      ensures Did(old(sent), Start(old(View()), book.self, old(book.View()), writes), true, Nil)
    {
      if phase.Init? {
        book.AddConn(peer, true, true);
        phase := Wait;
        var _ := Write(Hello(book.self, peer, Initial), writes);
      }
    }

    /**
     Records the connection, answers, and shares the active peers that were not shared with it yet;
     they count as shared only when both writes work.
     */
    method Share(me: Peer, written: nat) returns (ok: bool, ghost ids: seq<Peer>)
      requires book.Valid()
      modifies this`sent, book, book.peers.Values
      ensures book.Valid() && ok == (written >= 2)
      ensures var met := WithConn(old(book.View()), book.self, me, false, true);
              && (written >= 1 ==> ListsActive(met, me, ids))
              && book.View() == if ok then WithShared(met, me, ids) else met
      ensures sent == old(sent) + (if written >= 1 then [Hello(book.self, me, Final)] else []) + if ok then [Peers(ids)] else []
    {
      ids := [];
      book.AddConn(me, false, true);
      ghost var met := book.View();
      ok := Write(Hello(book.self, me, Final), written >= 1);
      assert book.Valid() && book.View() == met;
      if !ok {
        return;
      }
      var active := book.ActivePeers(me);
      ids := active;
      assert book.View() == met;
      ok := Write(Peers(active), written >= 2);
      assert book.Valid() && book.View() == met;
      if !ok {
        return;
      }
      book.SetSharedPeers(me, active);
    }

    /** The greeting that a waiting handshaker was waiting for. */
    method Meet(g: Greeting, written: nat) returns (pass: bool, error: Error, ghost ids: seq<Peer>)
      requires book.Valid() && phase.Wait? && count < 5 && !g.Mistyped?
      modifies this, book, book.peers.Values
      ensures book.Valid()
      ensures g.From? && old(connPeer).scheme == g.me.scheme && written >= 1 ==>
                ListsActive(WithConn(old(book.View()), book.self, g.me, false, true), g.me, ids)
      ensures Did(old(sent), OnHello(old(View()), book.self, old(book.View()), g, ids, written), pass, error)
    {
      ids := [];
      count := 0;
      phase := Done;
      if g.Unparsable? {
        return false, BadPeer, ids;
      }
      if g.me.scheme != connPeer.scheme {
        return false, BadArgument, ids;
      }
      connPeer := g.me;
      peer := g.me;
      ghost var before := book.View();
      assert before == old(book.View());
      var ok;
      ok, ids := Share(g.me, written);
      if !ok {
        return false, WriteFailed, ids;
      }
      return true, Nil, ids;
    }

    method HandshakeMsg(g: Greeting, written: nat) returns (pass: bool, error: Error, ghost ids: seq<Peer>)
      requires book.Valid()
      modifies this, book, book.peers.Values
      ensures book.Valid()
      ensures old(phase).Wait? && old(count) < 5 && g.From? && old(connPeer).scheme == g.me.scheme && written >= 1 ==>
                ListsActive(WithConn(old(book.View()), book.self, g.me, false, true), g.me, ids)
      ensures Did(old(sent), OnHello(old(View()), book.self, old(book.View()), g, ids, written), pass, error)
    {
      ids := [];
      if count + 1 > 5 {
        count, closed := count + 1, true;
        return false, Forbidden, ids;
      }
      if g.Mistyped? {
        count := count + 1;
        return true, BadArgument, ids;
      }
      if phase.Wait? {
        pass, error, ids := Meet(g, written);
        return;
      }
      if phase.Done? {
        count := 0;
        return true, Nil, ids;
      }
      count := count + 1;
      return false, Nil, ids;
    }

    /** texts: None in place of the message is one of another type, None in place of an entry one that does not parse. */
    method PeersMsg(texts: Option<seq<Option<Peer>>>) returns (pass: bool, error: Error)
      requires book.Valid()
      modifies this`closed, book, book.peers.Values
      ensures book.Valid()
      ensures var l := if texts.None? then MistypedList else Listed(Parsed(texts.value), |Parsed(texts.value)| == |texts.value|);
              Did(old(sent), OnPeers(old(View()), book.self, old(book.View()), l), pass, error)
    {
      if !phase.Done? {
        closed := true;
        return false, Forbidden;
      }
      if texts.None? {
        return true, BadArgument;
      }
      var whole := AddTexts(texts.value);
      return false, if whole then Nil else BadPeer;
    }

    /** Adds the peers up to the first text that does not parse. */
    method AddTexts(texts: seq<Option<Peer>>) returns (whole: bool)
      requires book.Valid()
      modifies book, book.peers.Values
      ensures book.Valid() && whole == (|Parsed(texts)| == |texts|)
      ensures book.View() == WithPeers(old(book.View()), book.self, true, Parsed(texts))
    {
      ghost var ids := Parsed(texts);
      var i := 0;
      while i < |texts|
        invariant 0 <= i <= |ids|
        invariant book.Valid() && fresh(book.peers.Values - old(book.peers.Values))
        invariant book.View() == WithPeers(old(book.View()), book.self, true, ids[..i])
      {
        if texts[i].None? {
          assert ids[..i] == ids;
          return false;
        }
        assert texts[i] == Some(ids[i]);
        assert ids[..i + 1][..i] == ids[..i];
        ghost var before := book.View();
        book.AddConn(texts[i].value, true, false);
        assert book.View() == WithConn(before, book.self, ids[i], true, false);
        i := i + 1;
      }
      assert ids[..i] == ids;
      return true;
    }
  }
}
