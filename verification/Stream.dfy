/**
 Reading messages off a connection: frames are read, decoded and offered to the handler of their
 type, and the first message that no handler keeps for itself is returned. One implementation
 recurses and the other loops.
 */
module Stream {
  import opened Sequences
  import opened Wrappers

  import C = Codec

  datatype Route = Route(id: string, typ: Option<nat>)

  /** What a handler may change: its own data, and the routes that decide how messages are decoded. */
  datatype World<U> = World(user: U, routes: map<string, Option<nat>>)

  datatype Verdict<U> = Verdict(world: World<U>, pass: bool, error: Option<C.Error>)

  type Handler<!U, !M> = (World<U>, C.Header, Option<M>) -> Verdict<U>

  datatype Setup<!U, !M> = Setup(lib: C.Library<M>, handlers: Option<map<nat, Handler<U, M>>>)

  datatype Call<M> = Call(hdr: C.Header, msg: Option<M>)

  datatype Outcome<M> = Returned(hdr: Option<C.Header>, msg: Option<M>, error: Option<C.Error>) | Crashed

  /** One call of Read: decoded tells a handler's error from one in reading or decoding. */
  datatype Trace<U, M> = Trace(outcome: Outcome<M>, src: C.Source, world: World<U>, calls: seq<Call<M>>, decoded: bool)

  lemma FrameShrinks(src: C.Source)
    requires C.ReadFrame(src).0.Success?
    ensures |C.Joined(C.ReadFrame(src).1)| < |C.Joined(src)|
  {
  }

  predicate Handles<U, M>(setup: Setup<U, M>, kind: nat) {
    setup.handlers.Some? && kind in setup.handlers.value
  }

  /** The recursive implementation. */
  function ContextRead<U, M>(setup: Setup<U, M>, src: C.Source, world: World<U>): Trace<U, M>
    decreases |C.Joined(src)|
  {
    var (frame, left) := C.ReadFrame(src);
    if frame.Failure? then Trace(Returned(None, None, Some(frame.error)), left, world, [], false)
    else
      match C.Decode(setup.lib, Some(world.routes), frame.value)
      case Crashed => Trace(Crashed, left, world, [], false)
      case Undecoded(partial, e) => Trace(Returned(partial, None, Some(e)), left, world, [], false)
      case Decoded(h, m) =>
        if !Handles(setup, h.kind) then Trace(Returned(Some(h), m, None), left, world, [], true)
        else
          var v := setup.handlers.value[h.kind](world, h, m);
          if v.error.Some? || v.pass then Trace(Returned(Some(h), m, v.error), left, v.world, [Call(h, m)], true)
          else
            FrameShrinks(src);
            Prefixed([Call(h, m)], ContextRead(setup, left, v.world))
  }

  function Prefixed<U, M>(calls: seq<Call<M>>, t: Trace<U, M>): Trace<U, M> {
    t.(calls := calls + t.calls)
  }

  lemma PrefixedTwice<U, M>(a: seq<Call<M>>, b: seq<Call<M>>, t: Trace<U, M>)
    ensures Prefixed(a, Prefixed(b, t)) == Prefixed(a + b, t)
  {
  }

  /** The looping implementation returns neither header nor message beside an error in reading or decoding. */
  function LoopRead<U, M>(setup: Setup<U, M>, src: C.Source, world: World<U>): Trace<U, M> {
    var t := ContextRead(setup, src, world);
    if t.decoded || t.outcome.Crashed? then t else t.(outcome := Returned(None, None, t.outcome.error))
  }

  function Added(table: map<string, Option<nat>>, rs: seq<Route>): map<string, Option<nat>> {
    if rs == [] then table
    else Added(table, rs[..|rs| - 1])[rs[|rs| - 1].id := rs[|rs| - 1].typ]
  }

  function Deleted(table: map<string, Option<nat>>, rs: seq<Route>): map<string, Option<nat>> {
    table - set i | 0 <= i < |rs| :: rs[i].id
  }

  class Stream<U(!new), M(!new)> {
    const setup: Setup<U, M>
    var src: C.Source
    var world: World<U>

    constructor (s: Setup<U, M>, input: C.Source, user: U)
      ensures setup == s && src == input && world == World(user, map[])
    {
      setup, src, world := s, input, World(user, map[]);
    }

    /** Same handler calls, same bytes consumed, same result as the recursive reader. */
    method Read() returns (out: Outcome<M>, calls: seq<Call<M>>)
      modifies this
      ensures var t := ContextRead(setup, old(src), old(world));
              && src == t.src && world == t.world && calls == t.calls
              && (out.Returned? <==> t.outcome.Returned?)
              && (out.Returned? ==>
                    && out.error == t.outcome.error
                    && out.hdr == (if t.decoded then t.outcome.hdr else None)
                    && out.msg == (if t.decoded then t.outcome.msg else None))
      ensures out == LoopRead(setup, old(src), old(world)).outcome
    {
      ghost var whole := ContextRead(setup, src, world);
      calls := [];
      while true
        invariant whole == Prefixed(calls, ContextRead(setup, src, world))
        decreases |C.Joined(src)|
      {
        var (frame, left) := C.ReadFrame(src);
        if frame.Success? { FrameShrinks(src); }
        src := left;
        if frame.Failure? {
          return Returned(None, None, Some(frame.error)), calls;
        }
        var decoded := C.Decode(setup.lib, Some(world.routes), frame.value);
        if decoded.Crashed? {
          return Crashed, calls;
        }
        if decoded.Undecoded? {
          return Returned(None, None, Some(decoded.error)), calls;
        }
        var h, m := decoded.hdr, decoded.msg;
        if setup.handlers.None? {
          return Returned(Some(h), m, None), calls;
        }
        var pass := true;
        if h.kind in setup.handlers.value {
          var v := setup.handlers.value[h.kind](world, h, m);
          PrefixedTwice(calls, [Call(h, m)], ContextRead(setup, src, v.world));
          world, calls := v.world, calls + [Call(h, m)];
          if v.error.Some? {
            return Returned(Some(h), m, v.error), calls;
          }
          if !v.pass {
            pass := false;
          }
        }
        if pass {
          return Returned(Some(h), m, None), calls;
        }
      }
    }

    method AddRoute(rs: seq<Route>)
      modifies this`world
      ensures world == old(world).(routes := Added(old(world).routes, rs))
    {
      for i := 0 to |rs|
        invariant world == old(world).(routes := Added(old(world).routes, rs[..i]))
      {
        assert rs[..i + 1][..i] == rs[..i];
        world := world.(routes := world.routes[rs[i].id := rs[i].typ]);
      }
      assert rs[..|rs|] == rs;
    }

    method DelRoute(rs: seq<Route>)
      modifies this`world
      ensures world == old(world).(routes := Deleted(old(world).routes, rs))
    {
      for i := 0 to |rs|
        invariant world == old(world).(routes := Deleted(old(world).routes, rs[..i]))
      {
        world := world.(routes := world.routes - {rs[i].id});
      }
      assert rs[..|rs|] == rs;
    }
  }

  // ---------------------------------------------------------------- the route table

  /** A lookup finds the last route added under the id. */
  lemma {:induction false} AddedLookup(table: map<string, Option<nat>>, rs: seq<Route>, i: nat)
    requires i < |rs| && forall j | i < j < |rs| :: rs[j].id != rs[i].id
    ensures rs[i].id in Added(table, rs) && Added(table, rs)[rs[i].id] == rs[i].typ
  {
    if i < |rs| - 1 {
      AddedLookup(table, rs[..|rs| - 1], i);
    }
  }

  /** An id that was not added keeps what it had. */
  lemma {:induction false} AddedElsewhere(table: map<string, Option<nat>>, rs: seq<Route>, id: string)
    requires !Names(rs, id)
    ensures id in Added(table, rs) <==> id in table
    ensures id in table ==> Added(table, rs)[id] == table[id]
  {
    if rs == [] {
    } else {
      assert forall i | 0 <= i < |rs| - 1 :: rs[..|rs| - 1][i] == rs[i];
      AddedElsewhere(table, rs[..|rs| - 1], id);
    }
  }

  predicate Names(rs: seq<Route>, id: string) {
    exists i :: 0 <= i < |rs| && rs[i].id == id
  }

  lemma {:induction false} LastNamed(rs: seq<Route>, id: string) returns (i: nat)
    requires Names(rs, id)
    ensures i < |rs| && rs[i].id == id && forall j | i < j < |rs| :: rs[j].id != id
  {
    i := |rs| - 1;
    if rs[i].id != id {
      assert forall j | 0 <= j < i :: rs[..i][j] == rs[j];
      i := LastNamed(rs[..i], id);
    }
  }

  datatype TableCall = Adding(rs: seq<Route>) | Deleting(rs: seq<Route>)

  /** The table after any calls of AddRoute and DelRoute on a new stream. */
  function TableAfter(calls: seq<TableCall>): map<string, Option<nat>> {
    if calls == [] then map[]
    else
      var last := calls[|calls| - 1];
      var before := TableAfter(calls[..|calls| - 1]);
      if last.Adding? then Added(before, last.rs) else Deleted(before, last.rs)
  }

  /** The k-th call adds the id with this type, last among its routes, and no later call names the id. */
  predicate LastAddedBy(calls: seq<TableCall>, k: nat, id: string, typ: Option<nat>)
    requires k < |calls|
  {
    && calls[k].Adding? && Named(calls[k].rs, id, typ)
    && forall m | k < m < |calls| :: !Names(calls[m].rs, id)
  }

  predicate Named(rs: seq<Route>, id: string, typ: Option<nat>) {
    exists i :: 0 <= i < |rs| && rs[i] == Route(id, typ) && forall j | i < j < |rs| :: rs[j].id != id
  }

  lemma NamedIff(table: map<string, Option<nat>>, rs: seq<Route>, id: string, typ: Option<nat>)
    requires Names(rs, id)
    ensures id in Added(table, rs)
    ensures Added(table, rs)[id] == typ <==> Named(rs, id, typ)
  {
    var i := LastNamed(rs, id);
    AddedLookup(table, rs, i);
    if Named(rs, id, typ) {
      var k :| 0 <= k < |rs| && rs[k] == Route(id, typ) && forall j | k < j < |rs| :: rs[j].id != id;
      AddedLookup(table, rs, k);
    } else {
      assert rs[i] == Route(id, rs[i].typ);
    }
  }

  lemma LastAddedNext(calls: seq<TableCall>, id: string, typ: Option<nat>)
    requires calls != []
    ensures var n := |calls| - 1;
            (exists k :: 0 <= k <= n && LastAddedBy(calls, k, id, typ)) <==>
              || (calls[n].Adding? && Named(calls[n].rs, id, typ))
              || (!Names(calls[n].rs, id) && exists k :: 0 <= k < n && LastAddedBy(calls[..n], k, id, typ))
  {
    var n := |calls| - 1;
    if k :| 0 <= k <= n && LastAddedBy(calls, k, id, typ) {
      if k < n { assert LastAddedBy(calls[..n], k, id, typ); }
    }
    if calls[n].Adding? && Named(calls[n].rs, id, typ) {
      assert LastAddedBy(calls, n, id, typ);
    }
    if !Names(calls[n].rs, id) {
      if k :| 0 <= k < n && LastAddedBy(calls[..n], k, id, typ) {
        forall m | k < m < |calls| ensures !Names(calls[m].rs, id) {
          if m < n { assert calls[..n][m] == calls[m]; }
        }
        assert LastAddedBy(calls, k, id, typ);
      }
    }
  }

  /** After any calls, an id is found with a type exactly when the last call that names it added it so. */
  lemma {:induction false} LookupIff(calls: seq<TableCall>, id: string, typ: Option<nat>)
    ensures var table := TableAfter(calls);
            id in table && table[id] == typ <==> exists k :: 0 <= k < |calls| && LastAddedBy(calls, k, id, typ)
  {
    if calls == [] {
    } else {
      var n := |calls| - 1;
      var before, last := TableAfter(calls[..n]), calls[n];
      LookupIff(calls[..n], id, typ);
      LastAddedNext(calls, id, typ);
      if Names(last.rs, id) {
        NamedIff(before, last.rs, id, typ);
      } else {
        AddedElsewhere(before, last.rs, id);
        assert !Named(last.rs, id, typ);
      }
    }
  }

  /** Deleting the routes just added restores the table exactly when none of their ids was taken. */
  lemma DeleteUndoesAddIff(table: map<string, Option<nat>>, rs: seq<Route>)
    ensures Deleted(Added(table, rs), rs) == table <==> forall i | 0 <= i < |rs| :: rs[i].id !in table
  {
    var after := Deleted(Added(table, rs), rs);
    forall id | !Names(rs, id) ensures id in after <==> id in table
                               ensures id in table ==> after[id] == table[id]
    {
      AddedElsewhere(table, rs, id);
    }
    if forall i | 0 <= i < |rs| :: rs[i].id !in table {
      assert after == table;
    } else {
      var i :| 0 <= i < |rs| && rs[i].id in table;
      assert rs[i].id !in after;
    }
  }

  // ---------------------------------------------------------------- reading what was sent

  /** A message that its handler keeps for itself leaves the world that the handler left. */
  function Kept<U, M>(setup: Setup<U, M>, p: C.Pair, w: World<U>): Option<(Call<M>, World<U>)> {
    var d := C.Decode(setup.lib, Some(w.routes), C.Body(p.h, p.m));
    if !d.Decoded? || !Handles(setup, d.hdr.kind) then None
    else
      var v := setup.handlers.value[d.hdr.kind](w, d.hdr, d.msg);
      if v.error.Some? || v.pass then None else Some((Call(d.hdr, d.msg), v.world))
  }

  /** The world after handlers kept every message of ps, if they all did. */
  function AllKept<U, M>(setup: Setup<U, M>, ps: seq<C.Pair>, w: World<U>): Option<(seq<Call<M>>, World<U>)> {
    if ps == [] then Some(([], w))
    else
      match Kept(setup, ps[0], w)
      case None => None
      case Some((call, w')) =>
        match AllKept(setup, ps[1..], w')
        case None => None
        case Some((calls, w'')) => Some(([call] + calls, w''))
  }

  lemma ReadsOne<U, M>(setup: Setup<U, M>, p: C.Pair, rest: C.Bytes, w: World<U>)
    requires C.Fits(p.h, p.m) && Kept(setup, p, w).Some?
    ensures var (call, w') := Kept(setup, p, w).value;
            ContextRead(setup, C.Whole(C.Frame(p.h, p.m) + rest), w)
            == Prefixed([call], ContextRead(setup, C.Whole(rest), w'))
  {
    C.WholeFrame(C.Body(p.h, p.m), rest);
  }

  /** Frames that handlers keep are consumed in order, each by one handler call, and reading goes on after them. */
  lemma {:induction false} ReadsPastKept<U, M>(setup: Setup<U, M>, ps: seq<C.Pair>, rest: C.Bytes, w: World<U>)
    requires C.AllFit(ps) && AllKept(setup, ps, w).Some?
    ensures var (calls, w') := AllKept(setup, ps, w).value;
            && |calls| == |ps|
            && ContextRead(setup, C.Whole(C.Encoded(ps) + rest), w) == Prefixed(calls, ContextRead(setup, C.Whole(rest), w'))
    decreases |ps|
  {
    if ps == [] {
      assert C.Encoded(ps) + rest == rest;
    } else {
      var (call, w') := Kept(setup, ps[0], w).value;
      var (calls, w'') := AllKept(setup, ps[1..], w').value;
      Regroup(C.Frame(ps[0].h, ps[0].m), C.Encoded(ps[1..]), rest);
      ReadsOne(setup, ps[0], C.Encoded(ps[1..]) + rest, w);
      ReadsPastKept(setup, ps[1..], rest, w');
      PrefixedTwice([call], calls, ContextRead(setup, C.Whole(rest), w''));
    }
  }

  /** Read returns the first sent message that no handler keeps, and leaves exactly the bytes after it. */
  lemma FirstUnkeptIsReturned<U, M>(setup: Setup<U, M>, ps: seq<C.Pair>, p: C.Pair, rest: C.Bytes, w: World<U>)
    requires C.AllFit(ps) && C.Fits(p.h, p.m)
    requires AllKept(setup, ps, w).Some? && Kept(setup, p, AllKept(setup, ps, w).value.1).None?
    ensures var (calls, w') := AllKept(setup, ps, w).value;
            var t := ContextRead(setup, C.Whole(C.Encoded(ps) + (C.Frame(p.h, p.m) + rest)), w);
            var d := C.Decode(setup.lib, Some(w'.routes), C.Body(p.h, p.m));
            && t.src == C.Whole(rest)
            && (t.decoded <==> d.Decoded?)
            && (d.Decoded? ==>
                  && t.outcome.Returned? && t.outcome.hdr == Some(d.hdr) && t.outcome.msg == d.msg
                  && if Handles(setup, d.hdr.kind) then
                       var v := setup.handlers.value[d.hdr.kind](w', d.hdr, d.msg);
                       t.calls == calls + [Call(d.hdr, d.msg)] && t.world == v.world && t.outcome.error == v.error
                     else t.calls == calls && t.world == w' && t.outcome.error == None)
            && (!d.Decoded? ==> t.calls == calls && t.world == w')
            && (d.Undecoded? ==> t.outcome == Returned(d.partial, None, Some(d.error)))
            && (d.Crashed? ==> t.outcome == Crashed)
  {
    var (calls, w') := AllKept(setup, ps, w).value;
    ReadsPastKept(setup, ps, C.Frame(p.h, p.m) + rest, w);
    C.WholeFrame(C.Body(p.h, p.m), rest);
    assert calls + [] == calls;
  }

  /** When handlers keep everything, Read has run each of them once and reports the end of the input. */
  lemma AllKeptEndsInput<U, M>(setup: Setup<U, M>, ps: seq<C.Pair>, w: World<U>)
    requires C.AllFit(ps) && AllKept(setup, ps, w).Some?
    ensures var (calls, w') := AllKept(setup, ps, w).value;
            ContextRead(setup, C.Whole(C.Encoded(ps)), w)
            == Trace(Returned(None, None, Some(C.EndOfInput)), [], w', calls, false)
  {
    ReadsPastKept(setup, ps, [], w);
    assert C.Encoded(ps) + [] == C.Encoded(ps);
    var calls := AllKept(setup, ps, w).value.0;
    assert calls + [] == calls;
  }

  /** The loop on the same input: the same message, handler error, or decoding error without what was decoded of it. */
  lemma LoopReturnsFirstUnkept<U, M>(setup: Setup<U, M>, ps: seq<C.Pair>, p: C.Pair, rest: C.Bytes, w: World<U>)
    requires C.AllFit(ps) && C.Fits(p.h, p.m)
    requires AllKept(setup, ps, w).Some? && Kept(setup, p, AllKept(setup, ps, w).value.1).None?
    ensures var (calls, w') := AllKept(setup, ps, w).value;
            var t := LoopRead(setup, C.Whole(C.Encoded(ps) + (C.Frame(p.h, p.m) + rest)), w);
            var d := C.Decode(setup.lib, Some(w'.routes), C.Body(p.h, p.m));
            && t.src == C.Whole(rest)
            && (d.Decoded? ==>
                  if Handles(setup, d.hdr.kind) then
                    var v := setup.handlers.value[d.hdr.kind](w', d.hdr, d.msg);
                    && t.outcome == Returned(Some(d.hdr), d.msg, v.error)
                    && t.calls == calls + [Call(d.hdr, d.msg)] && t.world == v.world
                  else t.outcome == Returned(Some(d.hdr), d.msg, None) && t.calls == calls && t.world == w')
            && (d.Undecoded? ==> t.outcome == Returned(None, None, Some(d.error)) && t.calls == calls && t.world == w')
            && (d.Crashed? ==> t.outcome == Crashed && t.calls == calls && t.world == w')
  {
    FirstUnkeptIsReturned(setup, ps, p, rest, w);
  }

  /** And the end of the input after handlers have kept everything. */
  lemma LoopEndsInput<U, M>(setup: Setup<U, M>, ps: seq<C.Pair>, w: World<U>)
    requires C.AllFit(ps) && AllKept(setup, ps, w).Some?
    ensures var (calls, w') := AllKept(setup, ps, w).value;
            LoopRead(setup, C.Whole(C.Encoded(ps)), w)
            == Trace(Returned(None, None, Some(C.EndOfInput)), [], w', calls, false)
  {
    AllKeptEndsInput(setup, ps, w);
  }
}
