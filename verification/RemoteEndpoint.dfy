/**
 One end of a remote connection: which intents and interests are registered and who owns
 them, the queue of each registered interest, and which routes are linked. `Peer` and the
 functions on it give the effect of every operation; class `Endpoint` performs it on its
 registries and its connection.

 Close callbacks run before the next operation.
 */
module RemoteEndpoint {
  import opened Sequences
  import opened Wrappers
  import opened Routes

  datatype Kind = Intent | Interest

  datatype Key = Key(kind: Kind, id: string)

  /** A remote owner keeps the text under which the other end registered it. */
  datatype Owner = Local | Remote(text: string)

  /** A payload with its place among the payloads that the publishing intent accepted. */
  datatype Item = Item(pos: nat, payload: nat)

  datatype Wire =
    | Advert(kind: Kind, text: string, register: bool)
    | Data(text: string, item: Item)

  datatype Status =
    | Done | BadRoute | WriteFailed | Refused | LocalOwner | RemoteOwner
    | NoIntent | NoInterest | InvalidType | Forbidden | Timeout | Undecodable

  datatype Peer = Peer(
    size: nat,
    registry: map<Key, Owner>,
    queues: map<string, seq<Item>>,
    linked: set<string>,
    accepted: map<string, seq<nat>>,
    received: map<string, seq<Item>>,
    closed: bool)
  {
    function Queue(id: string): seq<Item> {
      if id in queues then queues[id] else []
    }

    function Accepted(id: string): seq<nat> {
      if id in accepted then accepted[id] else []
    }

    function Received(id: string): seq<Item> {
      if id in received then received[id] else []
    }

    predicate Owns(key: Key) {
      key in registry && registry[key].Local?
    }

    predicate Mirrors(key: Key) {
      key in registry && registry[key].Remote?
    }
  }

  datatype Effect = Effect(peer: Peer, sent: seq<Wire>, status: Status)

  // ---------------------------------------------------------------- the user's side

  /**
   Publish and Subscribe. The registration is sent before the endpoint's callback may still
   refuse the new object.
   */
  function Register(p: Peer, key: Key, writes: bool, accepts: bool): Effect {
    if key in p.registry then Effect(p, [], if p.registry[key].Local? then Done else RemoteOwner)
    else if !writes then Effect(p, [], WriteFailed)
    else
      var sent := [Advert(key.kind, key.id, true)];
      if !accepts then Effect(p, sent, Refused)
      else Effect(p.(registry := p.registry[key := Local]), sent, Done)
  }

  function Unregistered(p: Peer, key: Key): Peer {
    p.(registry := p.registry - {key},
       linked := p.linked - {key.id},
       queues := if key.kind.Interest? then p.queues - {key.id} else p.queues)
  }

  function Withdrawal(key: Key, writes: bool): seq<Wire> {
    if writes then [Advert(key.kind, key.id, false)] else []
  }

  /** Closing the registered object; it is gone even when the message cannot be written. */
  function Close(p: Peer, key: Key, writes: bool): Effect
    requires p.Owns(key)
  {
    Effect(Unregistered(p, key), Withdrawal(key, writes), if writes then Done else WriteFailed)
  }

  /** Closing an object that is no longer the registered one sends the same message. */
  function CloseStale(p: Peer, key: Key, writes: bool): Effect {
    Effect(p, Withdrawal(key, writes), if writes then Done else WriteFailed)
  }

  function Push(p: Peer, id: string, item: Item): Peer {
    p.(queues := p.queues[id := p.Queue(id) + [item]])
  }

  /** typed: the message is of the route's type. */
  function Send(p: Peer, id: string, payload: nat, typed: bool): Effect
    requires p.Owns(Key(Intent, id))
  {
    if id !in p.linked then Effect(p, [], NoInterest)
    else if !typed then Effect(p, [], InvalidType)
    else if |p.Queue(id)| >= p.size then Effect(p, [], Timeout)
    else
      var log := p.Accepted(id);
      Effect(Push(p, id, Item(|log|, payload)).(accepted := p.accepted[id := log + [payload]]), [], Done)
  }

  function Pop(p: Peer, id: string): Peer
    requires p.Queue(id) != []
  {
    p.(queues := p.queues[id := p.Queue(id)[1..]])
  }

  function Take(p: Peer, id: string): Effect
    requires p.Owns(Key(Interest, id)) && p.Queue(id) != []
  {
    Effect(Pop(p, id).(received := p.received[id := p.Received(id) + [p.Queue(id)[0]]]), [], Done)
  }

  // ---------------------------------------------------------------- goroutines

  /** The Linker's goroutine points the intent at the interest's queue. */
  function Connect(p: Peer, id: string): Effect
    requires Key(Intent, id) in p.registry && Key(Interest, id) in p.registry
  {
    Effect(p.(linked := p.linked + {id}), [], Done)
  }

  /** A remote interest forwards its queue; a payload that cannot be written is lost. */
  function Forward(p: Peer, id: string, writes: bool): Effect
    requires p.Mirrors(Key(Interest, id)) && p.Queue(id) != []
  {
    Effect(Pop(p, id), if writes then [Data(id, p.Queue(id)[0])] else [], if writes then Done else WriteFailed)
  }

  // ---------------------------------------------------------------- the other end's messages

  /** accepts: the endpoint's callback takes the new object. */
  function OnRegister(p: Peer, key: Key, text: string, accepts: bool): Effect {
    if key !in p.registry then
      if accepts then Effect(p.(registry := p.registry[key := Remote(text)]), [], Done) else Effect(p, [], Refused)
    else Effect(p, [], if p.registry[key].Local? then LocalOwner else Done)
  }

  function OnUnregister(p: Peer, key: Key, text: string): Effect {
    if key !in p.registry then Effect(p, [], NoIntent)
    else if p.registry[key] != Remote(text) then Effect(p, [], Forbidden)
    else Effect(Unregistered(p, key), [], Done)
  }

  /** Closing an end closes its connection and everything registered on it. */
  function Ended(p: Peer): Peer {
    p.(registry := map[], queues := map[], linked := {}, closed := true)
  }

  /** Only data of routes that this end has subscribed to itself has a type to decode it by. */
  predicate Decodes(p: Peer, m: Wire) {
    m.Data? ==> p.Owns(Key(Interest, m.text))
  }

  function OnData(p: Peer, id: string, item: Item): Effect {
    if Key(Intent, id) !in p.registry then Effect(p, [], NoIntent)
    else if id !in p.linked then Effect(p, [], NoInterest)
    else if |p.Queue(id)| >= p.size then Effect(p, [], Timeout)
    else Effect(Push(p, id, item), [], Done)
  }

  /** An error in reading ends the end. */
  function OnMessage(p: Peer, m: Wire, accepts: bool): Effect {
    if Decodes(p, m) then OnDecoded(p, m, accepts) else Effect(Ended(p), [], Undecodable)
  }

  function OnDecoded(p: Peer, m: Wire, accepts: bool): Effect {
    match RouteFromString(m.text)
    case Failure(_) => Effect(p, [], BadRoute)
    case Success(route) =>
      match m
      case Advert(kind, text, register) =>
        if register then OnRegister(p, Key(kind, route.ID()), text, accepts)
        else OnUnregister(p, Key(kind, route.ID()), text)
      case Data(_, item) => OnData(p, route.ID(), item)
  }

  // ---------------------------------------------------------------- the endpoint object

  class Endpoint {
    const size: nat
    var registry: map<Key, Owner>
    var queues: map<string, seq<Item>>
    var linked: set<string>
    var accepted: map<string, seq<nat>>
    var received: map<string, seq<Item>>
    var closed: bool
    var sent: seq<Wire>                  // everything written to the connection

    ghost function View(): Peer
      reads this
    {
      Peer(size, registry, queues, linked, accepted, received, closed)
    }

    ghost predicate Did(before: Peer, out: seq<Wire>, e: Effect, status: Status)
      reads this
    {
      View() == e.peer && sent == out + e.sent && status == e.status
    }

    constructor (size: nat)
      ensures View() == Peer(size, map[], map[], {}, map[], map[], false) && sent == []
    {
      this.size := size;
      registry, queues, linked, accepted, received, closed, sent := map[], map[], {}, map[], map[], false, [];
    }

    method Write(m: Wire, writes: bool) returns (ok: bool)
      modifies this`sent
      ensures ok == writes && sent == old(sent) + if writes then [m] else []
    {
      if writes {
        sent := sent + [m];
      }
      return writes;
    }

    /** Publish for an intent, Subscribe for an interest. */
    method Advertise(key: Key, writes: bool, accepts: bool) returns (status: Status)
      modifies this`registry, this`sent
      ensures Did(old(View()), old(sent), Register(old(View()), key, writes, accepts), status)
    {
      if key in registry {
        return if registry[key].Remote? then RemoteOwner else Done;
      }
      var ok := Write(Advert(key.kind, key.id, true), writes);
      if !ok {
        return WriteFailed;
      }
      if !accepts {
        return Refused;
      }
      registry := registry[key := Local];
      return Done;
    }

    method Remove(key: Key)
      modifies this`registry, this`linked, this`queues
      ensures View() == Unregistered(old(View()), key)
    {
      linked := linked - {key.id};
      registry := registry - {key};
      if key.kind.Interest? {
        queues := queues - {key.id};
      }
    }

    method CloseLocal(key: Key, writes: bool) returns (status: Status)
      requires View().Owns(key)
      modifies this`registry, this`linked, this`queues, this`sent
      ensures Did(old(View()), old(sent), Close(old(View()), key, writes), status)
    {
      var ok := Write(Advert(key.kind, key.id, false), writes);
      Remove(key);
      return if ok then Done else WriteFailed;
    }

    /** LocalIntent.Send on the intent of a route; the queue's reader makes room, or the context ends. */
    method SendLocal(id: string, payload: nat, typed: bool) returns (status: Status)
      requires View().Owns(Key(Intent, id))
      modifies this`queues, this`accepted
      ensures Did(old(View()), old(sent), Send(old(View()), id, payload, typed), status)
    {
      if id !in linked {
        return NoInterest;
      }
      if !typed {
        return InvalidType;
      }
      var queue := if id in queues then queues[id] else [];
      if |queue| >= size {
        return Timeout;
      }
      var log := if id in accepted then accepted[id] else [];
      queues := queues[id := queue + [Item(|log|, payload)]];
      accepted := accepted[id := log + [payload]];
      return Done;
    }

    /** The subscriber reads the oldest message of its queue. */
    method TakeLocal(id: string) returns (item: Item)
      requires View().Owns(Key(Interest, id)) && View().Queue(id) != []
      modifies this`queues, this`received
      ensures Did(old(View()), old(sent), Take(old(View()), id), Done) && item == old(View()).Queue(id)[0]
    {
      item := queues[id][0];
      queues := queues[id := queues[id][1..]];
      received := received[id := (if id in received then received[id] else []) + [item]];
    }

    method HandleRemote(kind: Kind, text: string, register: bool, accepts: bool) returns (status: Status)
      modifies this`registry, this`linked, this`queues
      ensures Did(old(View()), old(sent), OnMessage(old(View()), Advert(kind, text, register), accepts), status)
    {
      var parsed := RouteFromString(text);
      if parsed.Failure? {
        return BadRoute;
      }
      var key := Key(kind, parsed.value.ID());
      if !register {
        status := HandleUnregister(key, text);
        return;
      }
      if key !in registry {
        if !accepts {
          return Refused;
        }
        registry := registry[key := Remote(text)];
      }
      return if registry[key].Local? then LocalOwner else Done;
    }

    method HandleUnregister(key: Key, text: string) returns (status: Status)
      modifies this`registry, this`linked, this`queues
      ensures Did(old(View()), old(sent), OnUnregister(old(View()), key, text), status)
    {
      if key !in registry {
        return NoIntent;
      }
      if registry[key].Local? || registry[key].text != text {
        return Forbidden;
      }
      Remove(key);
      return Done;
    }

    /** A batch stops at its first error, like the same messages handled one by one until then. */
    method HandleBatch(kind: Kind, items: seq<Registration>) returns (status: Status, ghost steps: seq<Peer>)
      modifies this`registry, this`linked, this`queues
      ensures 0 < |steps| <= |items| + 1 && steps[0] == old(View()) && View() == steps[|steps| - 1] && sent == old(sent)
      ensures forall i | 0 <= i < |steps| - 1 :: Registers(steps[i], kind, items[i]) == Effect(steps[i + 1], [], Done)
      ensures status == Done <==> |steps| == |items| + 1
      ensures status != Done ==> Registers(View(), kind, items[|steps| - 1]) == Effect(View(), [], status)
    {
      steps := [View()];
      var i := 0;
      while i < |items|
        invariant 0 <= i <= |items| && |steps| == i + 1 && steps[0] == old(View()) && View() == steps[i] && sent == old(sent)
        invariant forall k | 0 <= k < i :: Registers(steps[k], kind, items[k]) == Effect(steps[k + 1], [], Done)
      {
        ghost var before := View();
        status := HandleRemote(kind, items[i].text, items[i].register, items[i].accepts);
        FailureChangesNothing(before, Advert(kind, items[i].text, items[i].register), items[i].accepts);
        if status != Done {
          return;
        }
        steps := steps + [View()];
        i := i + 1;
      }
      status := Done;
    }

    method End()
      modifies this`registry, this`queues, this`linked, this`closed
      ensures View() == Ended(old(View()))
    {
      closed := true;
      registry, queues, linked := map[], map[], {};
    }

    /** Reading a data message decodes it first. */
    method HandleMsg(text: string, item: Item) returns (status: Status)
      modifies this`registry, this`queues, this`linked, this`closed
      ensures Did(old(View()), old(sent), OnMessage(old(View()), Data(text, item), true), status)
    {
      if Key(Interest, text) !in registry || registry[Key(Interest, text)].Remote? {
        End();
        return Undecodable;
      }
      var parsed := RouteFromString(text);
      if parsed.Failure? {
        return BadRoute;
      }
      var id := parsed.value.ID();
      if Key(Intent, id) !in registry {
        return NoIntent;
      }
      if id !in linked {
        return NoInterest;
      }
      var queue := if id in queues then queues[id] else [];
      if |queue| >= size {
        return Timeout;
      }
      queues := queues[id := queue + [item]];
      return Done;
    }

    /** The forwarding goroutine drains the queue; `writes[i]` says whether the i-th write works. */
    method ForwardAll(id: string, writes: seq<bool>) returns (ghost at: seq<nat>)
      requires View().Mirrors(Key(Interest, id)) && |writes| == |View().Queue(id)|
      modifies this`queues, this`sent
      ensures (View(), sent) == Forwards(old(View()), old(sent), id, writes)
      ensures TrueAt(at, writes) && sent == old(sent) + DataAt(id, old(View()).Queue(id), at)
      ensures View() == old(View()).(queues := View().queues) && View().Queue(id) == []
      ensures forall other | other != id :: View().Queue(other) == old(View()).Queue(other)
    {
      ghost var p, out := View(), sent;
      var i := 0;
      while id in queues && queues[id] != []
        invariant 0 <= i <= |writes| && (View(), sent) == Forwards(p, out, id, writes[..i])
        decreases |writes| - i
      {
        assert writes[..i + 1][..i] == writes[..i];
        ghost var before := View();
        var m := queues[id][0];
        queues := queues[id := queues[id][1..]];
        var _ := Write(Data(id, m), writes[i]);
        assert View() == Forward(before, id, writes[i]).peer;
        i := i + 1;
      }
      assert writes[..i] == writes;
      at := ForwardsPick(p, out, id, writes);
    }
  }

  /** One entry of a batch. */
  datatype Registration = Registration(text: string, register: bool, accepts: bool)

  function Registers(p: Peer, kind: Kind, r: Registration): Effect {
    OnMessage(p, Advert(kind, r.text, r.register), r.accepts)
  }

  /** A message that is decoded and answered with an error leaves the endpoint as it was. */
  lemma FailureChangesNothing(p: Peer, m: Wire, accepts: bool)
    ensures Decodes(p, m) && OnMessage(p, m, accepts).status != Done ==> OnMessage(p, m, accepts).peer == p
    ensures OnMessage(p, m, accepts).sent == []
  {
  }

  /** Whoever registers a free key first keeps it: the same side is told Done again, the other one whose it is. */
  lemma FirstOwnerKeeps(p: Peer, key: Key, text: string, writes: bool, accepts: bool)
    requires key !in p.registry
    ensures var mine := Register(p, key, true, true).peer;
            && mine.Owns(key) && Register(p, key, true, true).sent == [Advert(key.kind, key.id, true)]
            && Register(mine, key, writes, accepts) == Effect(mine, [], Done)
            && OnRegister(mine, key, text, accepts) == Effect(mine, [], LocalOwner)
    ensures var theirs := OnRegister(p, key, text, true).peer;
            && theirs.registry == p.registry[key := Remote(text)]
            && Register(theirs, key, writes, accepts) == Effect(theirs, [], RemoteOwner)
            && OnRegister(theirs, key, text, accepts) == Effect(theirs, [], Done)
  {
  }

  /** Until it leaves: then the key is free again, and a send on the route finds nobody. */
  lemma LeavingFrees(p: Peer, key: Key, payload: nat, typed: bool, writes: bool)
    requires key in p.registry && key.kind.Interest? && p.Owns(Key(Intent, key.id))
    ensures var left := if p.Owns(key) then Close(p, key, writes).peer else OnUnregister(p, key, p.registry[key].text).peer;
            && key !in left.registry && left.Queue(key.id) == []
            && Send(left, key.id, payload, typed) == Effect(left, [], NoInterest)
  {
  }

  /** Linked on one end, the message that was accepted is the one that the subscriber reads. */
  lemma LinkedDelivers(p: Peer, id: string, payload: nat)
    requires p.Owns(Key(Intent, id)) && p.Owns(Key(Interest, id)) && p.Queue(id) == []
    ensures var sent := Send(Connect(p, id).peer, id, payload, true);
            && (sent.status.Done? <==> p.size > 0)
            && (p.size > 0 ==>
                  Take(sent.peer, id).peer.Received(id) == p.Received(id) + [Item(|p.Accepted(id)|, payload)])
    ensures p.size > 0 ==> Send(Connect(p, id).peer, id, payload, false).status == InvalidType
  {
  }

  /** The end and its output after one Forward for each write. */
  function Forwards(p: Peer, out: seq<Wire>, id: string, writes: seq<bool>): (after: (Peer, seq<Wire>))
    requires p.Mirrors(Key(Interest, id)) && |writes| <= |p.Queue(id)|
    ensures after.0 == p.(queues := after.0.queues) && after.0.Queue(id) == p.Queue(id)[|writes|..]
    ensures forall other | other != id :: after.0.Queue(other) == p.Queue(other)
  {
    if writes == [] then (p, out)
    else
      var n := |writes| - 1;
      var (before, sent) := Forwards(p, out, id, writes[..n]);
      var e := Forward(before, id, writes[n]);
      (e.peer, sent + e.sent)
  }

  function DataAt(id: string, queue: seq<Item>, at: seq<nat>): (ms: seq<Wire>)
    requires forall k | 0 <= k < |at| :: at[k] < |queue|
  {
    seq(|at|, k requires 0 <= k < |at| => Data(id, queue[at[k]]))
  }

  lemma ForwardsLast(p: Peer, out: seq<Wire>, id: string, writes: seq<bool>)
    requires p.Mirrors(Key(Interest, id)) && 0 < |writes| <= |p.Queue(id)|
    ensures var n := |writes| - 1;
            Forwards(p, out, id, writes).1
            == Forwards(p, out, id, writes[..n]).1 + if writes[n] then [Data(id, p.Queue(id)[n])] else []
  {
  }

  lemma DataAtNext(out: seq<Wire>, id: string, queue: seq<Item>, at: seq<nat>, n: nat)
    requires (forall k | 0 <= k < |at| :: at[k] < |queue|) && n < |queue|
    ensures out + DataAt(id, queue, at) + [Data(id, queue[n])] == out + DataAt(id, queue, at + [n])
  {
  }

  /** Forwarding writes exactly the payloads whose writes work, in the order of the queue. */
  lemma {:induction false} ForwardsPick(p: Peer, out: seq<Wire>, id: string, writes: seq<bool>) returns (at: seq<nat>)
    requires p.Mirrors(Key(Interest, id)) && |writes| <= |p.Queue(id)|
    ensures TrueAt(at, writes) && Forwards(p, out, id, writes).1 == out + DataAt(id, p.Queue(id), at)
  {
    if writes == [] {
      at := [];
    } else {
      var n := |writes| - 1;
      at := ForwardsPick(p, out, id, writes[..n]);
      ForwardsLast(p, out, id, writes);
      TrueAtNext(at, writes);
      if writes[n] {
        DataAtNext(out, id, p.Queue(id), at, n);
        at := at + [n];
      }
    }
  }
}
