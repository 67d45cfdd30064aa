/**
 The mesh address book: entries by address, each with its connection and the peers already
 shared with it.
 */
module Addrbook {
  datatype Peer = Peer(scheme: string, addr: string, path: string) {
    predicate Equal(other: Peer) {
      scheme == other.scheme && addr == other.addr
    }
  }

  datatype Entry = Entry(peer: Peer, outbound: bool, connected: bool, dialing: bool, shared: set<Peer>) {
    predicate Active() {
      connected || dialing
    }
  }

  type Book = map<string, Entry>

  function NewEntry(p: Peer, outbound: bool): Entry {
    Entry(p, outbound, false, false, {})
  }

  /** A second connection on a connected entry is refused; any other change forgets what was shared. */
  function EntryWithConn(e: Entry, up: bool): Entry {
    if e.connected && up then e else e.(shared := {}, connected := up)
  }

  function EntryFor(b: Book, p: Peer, outbound: bool): Entry {
    if p.addr in b then b[p.addr] else NewEntry(p, outbound)
  }

  function WithConn(b: Book, self: Peer, p: Peer, outbound: bool, conn: bool): Book {
    if self.Equal(p) then b
    else
      var e := EntryFor(b, p, outbound);
      b[p.addr := if conn then EntryWithConn(e, true) else e]
  }

  function WithPeers(b: Book, self: Peer, outbound: bool, ps: seq<Peer>): Book {
    if ps == [] then b
    else WithConn(WithPeers(b, self, outbound, ps[..|ps| - 1]), self, ps[|ps| - 1], outbound, false)
  }

  function Stored(ps: seq<Peer>): Book {
    if ps == [] then map[]
    else Stored(ps[..|ps| - 1])[ps[|ps| - 1].addr := NewEntry(ps[|ps| - 1], true)]
  }

  function WithShared(b: Book, remote: Peer, ps: seq<Peer>): Book {
    if remote.addr in b then b[remote.addr := b[remote.addr].(shared := b[remote.addr].shared + set p | p in ps)]
    else b
  }

  function SharedWith(b: Book, remote: Peer): set<Peer> {
    if remote.addr in b then b[remote.addr].shared else {}
  }

  /** Whether the entry under k is offered to the remote peer. */
  predicate Offered(b: Book, remote: Peer, k: string)
    requires k in b
  {
    b[k].Active() && !b[k].peer.Equal(remote) && b[k].peer !in SharedWith(b, remote)
  }

  /** ps lists what is offered to the remote peer, in the order in which the map was visited. */
  ghost predicate ListsActive(b: Book, remote: Peer, ps: seq<Peer>) {
    && (forall k | k in b && Offered(b, remote, k) :: b[k].peer in ps)
    && (forall p | p in ps :: exists k :: k in b && Offered(b, remote, k) && b[k].peer == p)
  }

  // ---------------------------------------------------------------- the objects

  class AddrbookEntry {
    const peer: Peer
    var outbound: bool
    var connected: bool
    var dialing: bool
    var shared: set<Peer>

    function View(): Entry
      reads this
    {
      Entry(peer, outbound, connected, dialing, shared)
    }

    constructor (peer: Peer, outbound: bool)
      ensures View() == NewEntry(peer, outbound)
    {
      this.peer := peer;
      this.outbound, connected, dialing, shared := outbound, false, false, {};
    }

    /** Returns whether the connection was accepted. */
    method SetConn(up: bool) returns (ok: bool)
      modifies this
      ensures View() == EntryWithConn(old(View()), up) && ok == !(old(connected) && up)
      ensures connected == up && shared == if ok then {} else old(shared)
    {
      if connected && up {
        return false;
      }
      shared := {};
      connected := up;
      return true;
    }

    method SetSharedPeers(ps: seq<Peer>)
      modifies this
      ensures View() == old(View()).(shared := old(shared) + set p | p in ps)
    {
      var i := 0;
      while i < |ps|
        invariant 0 <= i <= |ps|
        invariant View() == old(View()).(shared := old(shared) + set p | p in ps[..i])
      {
        shared := shared + {ps[i]};
        assert ps[..i + 1] == ps[..i] + [ps[i]];
        i := i + 1;
      }
      assert ps[..i] == ps;
    }
  }

  class AddressBook {
    const self: Peer
    var peers: map<string, AddrbookEntry>

    ghost predicate Valid()
      reads this
    {
      forall k | k in peers :: peers[k].peer.addr == k
    }

    ghost function View(): Book
      reads this, peers.Values
    {
      map k | k in peers :: peers[k].View()
    }

    /** Stored entries are taken as they are, one for each address, and the last one wins. */
    constructor (self: Peer, stored: seq<Peer>)
      ensures Valid() && View() == Stored(stored) && this.self == self
      ensures forall k | k in peers :: fresh(peers[k])
    {
      this.self := self;
      peers := map[];
      new;
      var i := 0;
      while i < |stored|
        invariant 0 <= i <= |stored|
        invariant this.self == self && Valid() && forall k | k in peers :: fresh(peers[k])
        invariant View() == Stored(stored[..i])
      {
        var e := new AddrbookEntry(stored[i], true);
        peers := peers[stored[i].addr := e];
        assert stored[..i + 1][..i] == stored[..i];
        i := i + 1;
      }
      assert stored[..i] == stored;
    }

    method AddConn(p: Peer, outbound: bool, conn: bool)
      requires Valid()
      modifies this, peers.Values
      ensures Valid() && fresh(peers.Values - old(peers.Values))
      ensures View() == WithConn(old(View()), self, p, outbound, conn)
      ensures conn && !self.Equal(p) ==> p.addr in peers && peers[p.addr].connected
    {
      if self.Equal(p) {
        return;
      }
      GetOrAdd(p, outbound);
      if conn {
        Connect(p.addr, true);
      }
    }

    method GetOrAdd(p: Peer, outbound: bool)
      requires Valid()
      modifies this`peers
      ensures Valid() && fresh(peers.Values - old(peers.Values))
      ensures p.addr in peers && View() == old(View())[p.addr := EntryFor(old(View()), p, outbound)]
    {
      if p.addr !in peers {
        var e := new AddrbookEntry(p, outbound);
        peers := peers[p.addr := e];
      }
    }

    method Connect(addr: string, up: bool)
      requires Valid() && addr in peers
      modifies peers[addr]
      ensures View() == old(View())[addr := EntryWithConn(old(View())[addr], up)] && peers[addr].connected == up
    {
      var e := peers[addr];
      assert forall k | k in peers && k != addr :: peers[k] != e;
      var _ := e.SetConn(up);
    }

    method AddPeers(outbound: bool, ps: seq<Peer>)
      requires Valid()
      modifies this, peers.Values
      ensures Valid() && fresh(peers.Values - old(peers.Values))
      ensures View() == WithPeers(old(View()), self, outbound, ps)
    {
      var i := 0;
      while i < |ps|
        invariant 0 <= i <= |ps|
        invariant Valid() && fresh(peers.Values - old(peers.Values))
        invariant View() == WithPeers(old(View()), self, outbound, ps[..i])
      {
        AddConn(ps[i], outbound, false);
        assert ps[..i + 1][..i] == ps[..i];
        i := i + 1;
      }
      assert ps[..i] == ps;
    }

    method SetSharedPeers(remote: Peer, ps: seq<Peer>)
      requires Valid()
      modifies peers.Values
      ensures View() == WithShared(old(View()), remote, ps)
    {
      if remote.addr in peers {
        var e := peers[remote.addr];
        assert forall k | k in peers && k != remote.addr :: peers[k] != e;
        e.SetSharedPeers(ps);
      }
    }

    /** Visits the entries in any order. */
    method ActivePeers(remote: Peer) returns (ps: seq<Peer>)
      ensures ListsActive(View(), remote, ps)
      ensures forall p | p in ps ::
                && (exists k :: k in peers && peers[k].peer == p && (peers[k].connected || peers[k].dialing))
                && !(p.scheme == remote.scheme && p.addr == remote.addr)
                && (remote.addr in peers ==> p !in peers[remote.addr].shared)
    {
      var shared := if remote.addr in peers then peers[remote.addr].shared else {};
      ps := [];
      var left := peers.Keys;
      while left != {}
        invariant left <= peers.Keys
        invariant forall k | k in peers.Keys - left && Offered(View(), remote, k) :: View()[k].peer in ps
        invariant forall p | p in ps ::
                    && (exists k :: k in peers && peers[k].peer == p && (peers[k].connected || peers[k].dialing))
                    && !(p.scheme == remote.scheme && p.addr == remote.addr) && p !in shared
        invariant forall p | p in ps :: exists k :: k in View() && Offered(View(), remote, k) && View()[k].peer == p
        decreases left
      {
        var k :| k in left;
        left := left - {k};
        var e := peers[k];
        if (e.connected || e.dialing) && !e.peer.Equal(remote) && e.peer !in shared {
          assert Offered(View(), remote, k) && View()[k].peer == e.peer;
          assert k in peers && peers[k].peer == e.peer && (peers[k].connected || peers[k].dialing);
          ps := ps + [e.peer];
        }
      }
    }
  }

  // ---------------------------------------------------------------- what every operation keeps

  ghost predicate Keyed(b: Book) {
    forall k | k in b :: b[k].peer.addr == k
  }

  ghost predicate WithoutSelf(b: Book, self: Peer) {
    forall k | k in b :: !self.Equal(b[k].peer)
  }

  /** Entries stay, with the peer they were made for. */
  ghost predicate Extends(b: Book, b': Book) {
    forall k | k in b :: k in b' && b'[k].peer == b[k].peer
  }

  datatype Event =
    | DoAddConn(peer: Peer, outbound: bool, conn: bool)
    | DoAddPeers(outbound: bool, ps: seq<Peer>)
    | DoShare(remote: Peer, ps: seq<Peer>)
    | DoDisconnect(addr: string)
    | DoDialing(addr: string, dialing: bool)

  function Step(b: Book, self: Peer, e: Event): Book {
    match e
    case DoAddConn(p, outbound, conn) => WithConn(b, self, p, outbound, conn)
    case DoAddPeers(outbound, ps) => WithPeers(b, self, outbound, ps)
    case DoShare(remote, ps) => WithShared(b, remote, ps)
    case DoDisconnect(addr) => if addr in b then b[addr := EntryWithConn(b[addr], false)] else b
    case DoDialing(addr, dialing) => if addr in b then b[addr := b[addr].(dialing := dialing)] else b
  }

  function Run(b: Book, self: Peer, es: seq<Event>): Book {
    if es == [] then b else Step(Run(b, self, es[..|es| - 1]), self, es[|es| - 1])
  }

  /** A book of stored peers: each address once, and only self's own entry among them can put self into it. */
  lemma {:induction false} StoredHolds(self: Peer, ps: seq<Peer>)
    ensures Keyed(Stored(ps)) && (forall p | p in ps :: p.addr in Stored(ps))
    ensures forall k | k in Stored(ps) :: Stored(ps)[k].peer in ps
    ensures (forall p | p in ps :: !self.Equal(p)) ==> WithoutSelf(Stored(ps), self)
  {
    if ps == [] {
    } else {
      StoredHolds(self, ps[..|ps| - 1]);
      assert ps == ps[..|ps| - 1] + [ps[|ps| - 1]];
    }
  }

  /** Of several stored peers with one address the last one is held, neither connected nor dialled. */
  lemma {:induction false} LastStoredIsHeld(ps: seq<Peer>, i: nat)
    requires i < |ps| && forall j | i < j < |ps| :: ps[j].addr != ps[i].addr
    ensures ps[i].addr in Stored(ps) && Stored(ps)[ps[i].addr] == Entry(ps[i], true, false, false, {})
  {
    if i < |ps| - 1 {
      LastStoredIsHeld(ps[..|ps| - 1], i);
    }
  }

  /** Adding peers connects, dials and shares nothing. */
  lemma {:induction false} AddedAreBlank(b: Book, self: Peer, outbound: bool, ps: seq<Peer>, k: string)
    requires k in WithPeers(b, self, outbound, ps) && k !in b
    ensures var e := WithPeers(b, self, outbound, ps)[k];
            !e.connected && !e.dialing && e.shared == {} && e.outbound == outbound
  {
    var n := |ps| - 1;
    if k in WithPeers(b, self, outbound, ps[..n]) {
      AddedAreBlank(b, self, outbound, ps[..n], k);
    }
  }

  lemma AddOneKeeps(b: Book, self: Peer, p: Peer, outbound: bool)
    ensures var b' := WithConn(b, self, p, outbound, false);
            && (Keyed(b) ==> Keyed(b')) && (WithoutSelf(b, self) ==> WithoutSelf(b', self))
            && (self.Equal(p) || p.addr in b') && (forall k | k in b :: k in b' && b'[k] == b[k])
  {
  }

  lemma {:induction false} AddPeersKeeps(b: Book, self: Peer, outbound: bool, ps: seq<Peer>)
    ensures var b' := WithPeers(b, self, outbound, ps);
            && Extends(b, b')
            && (Keyed(b) ==> Keyed(b')) && (WithoutSelf(b, self) ==> WithoutSelf(b', self))
            && (forall p | p in ps :: self.Equal(p) || p.addr in b')
            && (forall k | k in b :: b'[k] == b[k])
  {
    if ps == [] {
    } else {
      var n := |ps| - 1;
      AddPeersKeeps(b, self, outbound, ps[..n]);
      AddOneKeeps(WithPeers(b, self, outbound, ps[..n]), self, ps[n], outbound);
      assert ps == ps[..n] + [ps[n]];
    }
  }

  lemma StepKeeps(b: Book, self: Peer, e: Event)
    ensures var b' := Step(b, self, e);
            Extends(b, b') && (Keyed(b) ==> Keyed(b')) && (WithoutSelf(b, self) ==> WithoutSelf(b', self))
  {
    if e.DoAddPeers? { AddPeersKeeps(b, self, e.outbound, e.ps); }
  }

  /** No run adds self, and no run replaces or drops an entry. */
  lemma {:induction false} RunKeepsEntries(b: Book, self: Peer, es: seq<Event>)
    ensures var b' := Run(b, self, es);
            Extends(b, b') && (Keyed(b) ==> Keyed(b')) && (WithoutSelf(b, self) ==> WithoutSelf(b', self))
  {
    if es == [] {
    } else {
      RunKeepsEntries(b, self, es[..|es| - 1]);
      StepKeeps(Run(b, self, es[..|es| - 1]), self, es[|es| - 1]);
    }
  }

  // ---------------------------------------------------------------- what an entry says after a run

  datatype Fact = Connected | Dialing | SharedPeer(p: Peer)

  predicate Holds(b: Book, addr: string, fact: Fact) {
    addr in b &&
    match fact
    case Connected => b[addr].connected
    case Dialing => b[addr].dialing
    case SharedPeer(p) => p in b[addr].shared
  }

  /** A connection to a peer of this address other than self. */
  predicate Connects(self: Peer, e: Event, addr: string) {
    e.DoAddConn? && e.conn && e.peer.addr == addr && !self.Equal(e.peer)
  }

  predicate Gains(b: Book, self: Peer, e: Event, addr: string, fact: Fact) {
    match fact
    case Connected => Connects(self, e, addr)
    case Dialing => e == DoDialing(addr, true) && addr in b
    case SharedPeer(p) => e.DoShare? && e.remote.addr == addr && addr in b && p in e.ps
  }

  /** What was shared is forgotten with the connection, and when a new one is accepted. */
  predicate Loses(b: Book, self: Peer, e: Event, addr: string, fact: Fact) {
    match fact
    case Connected => e == DoDisconnect(addr)
    case Dialing => e == DoDialing(addr, false)
    case SharedPeer(_) => e == DoDisconnect(addr) || (Connects(self, e, addr) && !Holds(b, addr, Connected))
  }

  lemma StepDecides(b: Book, self: Peer, e: Event, addr: string, fact: Fact)
    ensures Holds(Step(b, self, e), addr, fact) <==>
              Gains(b, self, e, addr, fact) || (Holds(b, addr, fact) && !Loses(b, self, e, addr, fact))
  {
    if e.DoAddPeers? {
      AddPeersKeeps(b, self, e.outbound, e.ps);
      if addr in Step(b, self, e) && addr !in b { AddedAreBlank(b, self, e.outbound, e.ps, addr); }
    }
  }

  ghost predicate LostAt(b: Book, self: Peer, es: seq<Event>, addr: string, fact: Fact, j: nat)
    requires j < |es|
  {
    Loses(Run(b, self, es[..j]), self, es[j], addr, fact)
  }

  ghost predicate LostIn(b: Book, self: Peer, es: seq<Event>, addr: string, fact: Fact, from: nat) {
    exists j :: from <= j < |es| && LostAt(b, self, es, addr, fact, j)
  }

  ghost predicate GainedAt(b: Book, self: Peer, es: seq<Event>, addr: string, fact: Fact, k: nat)
    requires k < |es|
  {
    Gains(Run(b, self, es[..k]), self, es[k], addr, fact) && !LostIn(b, self, es, addr, fact, k + 1)
  }

  ghost predicate GainedAndKept(b: Book, self: Peer, es: seq<Event>, addr: string, fact: Fact) {
    exists k :: 0 <= k < |es| && GainedAt(b, self, es, addr, fact, k)
  }

  lemma LostNext(b: Book, self: Peer, es: seq<Event>, addr: string, fact: Fact, from: nat)
    requires from < |es|
    ensures var n := |es| - 1;
            LostIn(b, self, es, addr, fact, from) <==>
              LostIn(b, self, es[..n], addr, fact, from) || Loses(Run(b, self, es[..n]), self, es[n], addr, fact)
  {
    var n := |es| - 1;
    forall j | 0 <= j < n ensures LostAt(b, self, es, addr, fact, j) <==> LostAt(b, self, es[..n], addr, fact, j) {
      assert es[..n][..j] == es[..j];
    }
    assert LostAt(b, self, es, addr, fact, n) <==> Loses(Run(b, self, es[..n]), self, es[n], addr, fact);
  }

  lemma GainedNext(b: Book, self: Peer, es: seq<Event>, addr: string, fact: Fact)
    requires es != []
    ensures var n := |es| - 1;
            GainedAndKept(b, self, es, addr, fact) <==>
              || Gains(Run(b, self, es[..n]), self, es[n], addr, fact)
              || (GainedAndKept(b, self, es[..n], addr, fact) && !Loses(Run(b, self, es[..n]), self, es[n], addr, fact))
  {
    var n := |es| - 1;
    forall k | 0 <= k < n
      ensures GainedAt(b, self, es, addr, fact, k) <==>
                GainedAt(b, self, es[..n], addr, fact, k) && !Loses(Run(b, self, es[..n]), self, es[n], addr, fact)
    {
      assert es[..n][..k] == es[..k];
      LostNext(b, self, es, addr, fact, k + 1);
    }
    assert GainedAt(b, self, es, addr, fact, n) <==> Gains(Run(b, self, es[..n]), self, es[n], addr, fact);
  }

  /**
   In every run an entry is connected exactly when its peer was connected to, or it was so at the
   start, and no disconnection came after; likewise for dialling, and for every shared peer.
   */
  lemma {:induction false} FactIff(b: Book, self: Peer, es: seq<Event>, addr: string, fact: Fact)
    ensures Holds(Run(b, self, es), addr, fact) <==>
              || GainedAndKept(b, self, es, addr, fact)
              || (Holds(b, addr, fact) && !LostIn(b, self, es, addr, fact, 0))
  {
    if es == [] {
    } else {
      var n := |es| - 1;
      FactIff(b, self, es[..n], addr, fact);
      StepDecides(Run(b, self, es[..n]), self, es[n], addr, fact);
      GainedNext(b, self, es, addr, fact);
      LostNext(b, self, es, addr, fact, 0);
    }
  }

  /** A peer that connects for the first time is listed for every other one that was not told of it. */
  lemma NewConnectionIsListed(b: Book, self: Peer, p: Peer, outbound: bool, remote: Peer, ps: seq<Peer>)
    requires p.addr !in b && !self.Equal(p) && p.addr != remote.addr && p !in SharedWith(b, remote)
    requires ListsActive(WithConn(b, self, p, outbound, true), remote, ps)
    ensures p in ps
  {
    assert Offered(WithConn(b, self, p, outbound, true), remote, p.addr);
  }
}
