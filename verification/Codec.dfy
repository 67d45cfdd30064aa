/**
 The wire codec: a magic number, a 32-bit total size, then the header and the message, each behind
 its own 32-bit size. Marshalled payloads are byte strings; the marshalling library is a parameter.
 */
module Codec {
  import opened Sequences
  import opened Wrappers

  type Bytes = seq<Byte>

  const WORD := 0x1_0000_0000
  const MAGIC_NUMBER := 0xFADABEDA
  const MAX_HEADER := 2048

  datatype Error =
    | EndOfInput | NotEnoughBytes | BadArgument
    | NoInterest | InvalidType | InvalidRoute
    | Malformed | Custom(code: nat)

  // ---------------------------------------------------------------- 32-bit words, most significant byte first

  function Digits(n: nat, count: nat): (b: Bytes)
    ensures |b| == count
  {
    if count == 0 then [] else Digits(n / 256, count - 1) + [n % 256]
  }

  function Number(b: Bytes): nat {
    if b == [] then 0 else 256 * Number(b[..|b| - 1]) + b[|b| - 1]
  }

  function Limit(count: nat): nat {
    if count == 0 then 1 else 256 * Limit(count - 1)
  }

  lemma {:induction false} NumberOfDigits(n: nat, count: nat)
    requires n < Limit(count)
    ensures Number(Digits(n, count)) == n
  {
    if count > 0 {
      var b := Digits(n, count);
      NumberOfDigits(n / 256, count - 1);
      assert b[..count - 1] == Digits(n / 256, count - 1);
    }
  }

  lemma {:induction false} DigitsOfNumber(b: Bytes)
    ensures Number(b) < Limit(|b|) && Digits(Number(b), |b|) == b
  {
    if b == [] {
    } else {
      var high, low := b[..|b| - 1], b[|b| - 1];
      DigitsOfNumber(high);
      assert Number(b) / 256 == Number(high) && Number(b) % 256 == low;
      assert b == high + [low];
    }
  }

  lemma LimitOfWord()
    ensures Limit(4) == WORD
  {
  }

  /** Writing converts to 32 bits first, so that larger numbers lose their high part. */
  function Word(n: nat): (w: Bytes)
    ensures |w| == 4
  {
    Digits(n % WORD, 4)
  }

  function Value(b: Bytes): nat
    requires |b| >= 4
  {
    Number(b[..4])
  }

  lemma ValueOfWord(n: nat, rest: Bytes)
    ensures Value(Word(n) + rest) == n % WORD
  {
    LimitOfWord();
    NumberOfDigits(n % WORD, 4);
    assert (Word(n) + rest)[..4] == Word(n);
  }

  lemma WordOfValue(b: Bytes)
    requires |b| >= 4
    ensures Word(Value(b)) == b[..4] && Value(b) < WORD
  {
    LimitOfWord();
    DigitsOfNumber(b[..4]);
  }

  lemma {:induction false} NumberFirst(first: Byte, rest: Bytes)
    ensures Number([first] + rest) == first * Limit(|rest|) + Number(rest)
  {
    if rest == [] {
      assert [first] + rest == [first] && [first][..0] == [];
    } else {
      var n := |rest| - 1;
      NumberFirst(first, rest[..n]);
      assert ([first] + rest)[..|rest|] == [first] + rest[..n];
    }
  }

  /** The first byte of a word is the most significant one. */
  lemma ValueIsBigEndian(b: Bytes)
    requires |b| >= 4
    ensures Value(b) == (b[0] as nat) * 0x1000000 + (b[1] as nat) * 0x10000 + (b[2] as nat) * 0x100 + b[3] as nat
  {
    assert Limit(1) == 0x100 && Limit(2) == 0x10000 && Limit(3) == 0x1000000;
    NumberFirst(b[3], []);
    NumberFirst(b[2], [b[3]]);
    NumberFirst(b[1], [b[2], b[3]]);
    NumberFirst(b[0], [b[1], b[2], b[3]]);
    assert [b[3]] + [] == [b[3]] && [b[2]] + [b[3]] == [b[2], b[3]] && [b[1]] + [b[2], b[3]] == [b[1], b[2], b[3]];
    assert b[..4] == [b[0]] + [b[1], b[2], b[3]];
  }

  // ---------------------------------------------------------------- writing

  function Sized(b: Bytes): (p: Bytes)
    ensures |p| == |b| + 4
  {
    Word(|b|) + b
  }

  function Body(h: Bytes, m: Bytes): (b: Bytes)
    ensures |b| == |h| + |m| + 8
  {
    Sized(h) + Sized(m)
  }

  function Packed(body: Bytes): (f: Bytes)
    ensures |f| == |body| + 8
  {
    Word(MAGIC_NUMBER) + Sized(body)
  }

  function Frame(h: Bytes, m: Bytes): (f: Bytes)
    ensures |f| == |h| + |m| + 16
  {
    Packed(Body(h, m))
  }

  /** Where everything stands in a frame that fits. */
  lemma FrameLayout(h: Bytes, m: Bytes, f: Bytes)
    requires Fits(h, m) && f == Frame(h, m)
    ensures f[..4] == [0xFA, 0xDA, 0xBE, 0xDA]
    ensures Value(f[4..]) == |h| + |m| + 8 && Value(f[8..]) == |h| && f[12..12 + |h|] == h
    ensures Value(f[12 + |h|..]) == |m| && f[16 + |h|..] == m
  {
    FrameParts(h, m);
    MagicBytes();
    PartsLayout(Word(MAGIC_NUMBER), |h| + |m| + 8, h, m, f);
  }

  lemma PartsLayout(magic: Bytes, total: nat, h: Bytes, m: Bytes, f: Bytes)
    requires |magic| == 4 && total < WORD && |h| < WORD && |m| < WORD
    requires f == magic + (Word(total) + (Word(|h|) + (h + (Word(|m|) + m))))
    ensures f[..4] == magic && Value(f[4..]) == total && Value(f[8..]) == |h| && f[12..12 + |h|] == h
    ensures Value(f[12 + |h|..]) == |m| && f[16 + |h|..] == m
  {
    SixParts(magic, Word(total), Word(|h|), h, Word(|m|), m);
    Announces(f[4..], total, Word(|h|) + (h + (Word(|m|) + m)));
    Announces(f[8..], |h|, h + (Word(|m|) + m));
    Announces(f[12 + |h|..], |m|, m);
  }

  lemma Announces(b: Bytes, n: nat, rest: Bytes)
    requires b == Word(n) + rest && n < WORD
    ensures Value(b) == n
  {
    ValueOfWord(n, rest);
  }

  lemma SixParts(a: Bytes, b: Bytes, c: Bytes, h: Bytes, d: Bytes, m: Bytes)
    requires |a| == |b| == |c| == |d| == 4
    ensures var f := a + (b + (c + (h + (d + m))));
            && f[..4] == a && f[4..] == b + (c + (h + (d + m))) && f[8..] == c + (h + (d + m))
            && f[12..12 + |h|] == h && f[12 + |h|..] == d + m && f[16 + |h|..] == m
  {
    var f := a + (b + (c + (h + (d + m))));
    Behind(a, b + (c + (h + (d + m))));
    Behind(b, c + (h + (d + m)));
    Behind(c, h + (d + m));
    Behind(h, d + m);
    Behind(d, m);
    Drops(f, 4, 4);
    Drops(f, 8, 4);
    Drops(f, 12, |h|);
    Drops(f, 12 + |h|, 4);
    assert f[12..12 + |h|] == f[12..][..|h|];
  }

  lemma FrameParts(h: Bytes, m: Bytes)
    ensures Frame(h, m) == Word(MAGIC_NUMBER) + (Word(|h| + |m| + 8) + (Word(|h|) + (h + (Word(|m|) + m))))
  {
    Regroup(Word(|h|), h, Sized(m));
  }

  lemma Behind(a: Bytes, b: Bytes)
    ensures (a + b)[..|a|] == a && (a + b)[|a|..] == b
  {
  }

  lemma Drops(b: Bytes, i: nat, j: nat)
    requires i + j <= |b|
    ensures b[i..][j..] == b[i + j..]
  {
  }

  lemma MagicBytes()
    ensures Word(MAGIC_NUMBER) == [0xFA, 0xDA, 0xBE, 0xDA]
  {
    var w := Word(MAGIC_NUMBER);
    ValueOfWord(MAGIC_NUMBER, []);
    assert w + [] == w;
    ValueIsBigEndian(w);
  }

  /** None stands for nil, a failure for a value that the library refuses to marshal. */
  method AppendMessageTo(buf: Bytes, hdr: Option<Result<Bytes, Error>>, msg: Option<Result<Bytes, Error>>)
    returns (r: Result<Bytes, Error>)
    ensures hdr.None? || msg.None? ==> r == Failure(BadArgument)
    ensures hdr.Some? && msg.Some? ==>
              r == match (hdr.value, msg.value)
                   case (Success(h), Success(m)) => Success(buf + Frame(h, m))
                   case (Failure(e), _) => Failure(e)
                   case (_, Failure(e)) => Failure(e)
  {
    if hdr.None? || msg.None? {
      return Failure(BadArgument);
    }
    var hSize := if hdr.value.Success? then |hdr.value.value| else 0;
    var mSize := if msg.value.Success? then |msg.value.value| else 0;
    var out := buf + Word(MAGIC_NUMBER);
    out := out + Word(hSize + mSize + 4 + 4);
    out := out + Word(hSize);
    if hdr.value.Failure? {
      return Failure(hdr.value.error);
    }
    out := out + hdr.value.value;
    out := out + Word(mSize);
    if msg.value.Failure? {
      return Failure(msg.value.error);
    }
    out := out + msg.value.value;
    assert out == buf + Frame(hdr.value.value, msg.value.value);
    return Success(out);
  }

  // ---------------------------------------------------------------- reading

  /** Input arrives in segments; one read never crosses the end of a segment. */
  type Source = seq<Bytes>

  predicate NoEmptySegments(src: Source) {
    forall i | 0 <= i < |src| :: src[i] != []
  }

  function Joined(src: Source): Bytes {
    if src == [] then [] else src[0] + Joined(src[1..])
  }

  /** What one read into a buffer of n bytes delivers, and what it leaves. */
  function Got(src: Source, n: nat): Bytes {
    if src == [] then [] else if n < |src[0]| then src[0][..n] else src[0]
  }

  function Left(src: Source, n: nat): Source {
    if src == [] then [] else if n < |src[0]| then [src[0][n..]] + src[1..] else src[1..]
  }

  predicate Fills(src: Source, n: nat) {
    src != [] && |src[0]| >= n
  }

  lemma ReadConserves(src: Source, n: nat)
    ensures Joined(src) == Got(src, n) + Joined(Left(src, n))
    ensures |Got(src, n)| <= n
  {
  }

  lemma LeavesNoEmptySegments(src: Source, n: nat)
    requires NoEmptySegments(src)
    ensures NoEmptySegments(Left(src, n))
  {
  }

  class Reader {
    var src: Source

    constructor (segments: Source)
      ensures src == segments
    {
      src := segments;
    }

    method Read(n: nat) returns (got: Bytes, eof: bool)
      modifies this
      ensures got + Joined(src) == Joined(old(src))
      ensures eof <==> old(src) == [] && n > 0
      ensures got == Got(old(src), n) && src == Left(old(src), n)
    {
      ReadConserves(src, n);
      eof := src == [] && n > 0;
      if src == [] {
        return [], eof;
      }
      var first := src[0];
      if n < |first| {
        got := first[..n];
        src := [first[n..]] + src[1..];
      } else {
        got := first;
        src := src[1..];
      }
    }
  }

  function ReadFrame(src: Source): (Result<Bytes, Error>, Source) {
    var preamble, s := Got(src, 8), Left(src, 8);
    if src == [] then (Failure(EndOfInput), s)
    else if |preamble| != 8 then (Failure(NotEnoughBytes), s)
    else if Value(preamble) != MAGIC_NUMBER then (Failure(BadArgument), s)
    else
      var size := Value(preamble[4..]);
      var body, s' := Got(s, size), Left(s, size);
      if s == [] && size > 0 then (Failure(EndOfInput), s')
      else if |body| != size then (Failure(NotEnoughBytes), s')
      else (Success(body), s')
  }

  method ReadMessage(r: Reader) returns (res: Result<Bytes, Error>)
    modifies r
    ensures (res, r.src) == ReadFrame(old(r.src))
  {
    var preamble, eof := r.Read(8);
    if eof {
      return Failure(EndOfInput);
    }
    if |preamble| != 8 {
      return Failure(NotEnoughBytes);
    }
    if Value(preamble) != MAGIC_NUMBER {
      return Failure(BadArgument);
    }
    var size := Value(preamble[4..]);
    var body;
    body, eof := r.Read(size);
    if eof {
      return Failure(EndOfInput);
    }
    if |body| != size {
      return Failure(NotEnoughBytes);
    }
    return Success(body);
  }

  // ---------------------------------------------------------------- splitting a frame body

  /** A part behind its size; reading a size from fewer than four bytes panics. */
  datatype Piece = Piece(bytes: Bytes, rest: Bytes) | Rejected | Panics

  function TakeHeader(d: Bytes): Piece {
    if |d| < 4 then Panics
    else if Value(d) > |d| - 4 || Value(d) > MAX_HEADER then Rejected
    else Piece(d[4..4 + Value(d)], d[4 + Value(d)..])
  }

  function TakeMessage(d: Bytes): Piece {
    if |d| < 4 then Panics else if Value(d) != |d| - 4 then Rejected else Piece(d[4..], [])
  }

  predicate SplitsInto(d: Bytes, h: Bytes, m: Bytes) {
    TakeHeader(d).Piece? && TakeHeader(d).bytes == h && TakeMessage(TakeHeader(d).rest) == Piece(m, [])
  }

  predicate Fits(h: Bytes, m: Bytes) {
    |h| <= MAX_HEADER && |h| + |m| + 8 < WORD
  }

  lemma TakeHeaderIff(d: Bytes, h: Bytes, tail: Bytes)
    ensures TakeHeader(d) == Piece(h, tail) <==> d == Sized(h) + tail && |h| <= MAX_HEADER
  {
    var size := Word(|h|);
    Regroup(size, h, tail);
    if TakeHeader(d) == Piece(h, tail) {
      WordOfValue(d);
      ThreeParts(d[..4], h, tail, d);
    }
    if d == Sized(h) + tail && |h| <= MAX_HEADER {
      ValueOfWord(|h|, h + tail);
      ThreeParts(size, h, tail, d);
    }
  }

  lemma ThreeParts(a: Bytes, b: Bytes, c: Bytes, d: Bytes)
    requires |d| == |a| + |b| + |c|
    ensures d == (a + b) + c <==> d[..|a|] == a && d[|a|..|a| + |b|] == b && d[|a| + |b|..] == c
  {
  }

  lemma TakeMessageIff(d: Bytes, m: Bytes)
    ensures TakeMessage(d) == Piece(m, []) <==> d == Sized(m) && |m| < WORD
  {
    if TakeMessage(d) == Piece(m, []) {
      WordOfValue(d);
      assert d == d[..4] + d[4..];
    }
    if d == Sized(m) && |m| < WORD {
      ValueOfWord(|m|, m);
      assert d[4..] == m;
    }
  }

  lemma SameLengthConcat(a: Bytes, b: Bytes, c: Bytes, d: Bytes)
    requires a + b == c + d && |a| == |c|
    ensures a == c && b == d
  {
    assert (a + b)[..|a|] == a && (c + d)[..|a|] == c;
    assert (a + b)[|a|..] == b && (c + d)[|a|..] == d;
  }

  /** Splitting is the exact inverse of Body, for headers of at most 2048 bytes. */
  lemma SplitIffBody(d: Bytes, h: Bytes, m: Bytes)
    ensures SplitsInto(d, h, m) <==> d == Body(h, m) && |h| <= MAX_HEADER && |m| < WORD
  {
    TakeHeaderIff(d, h, Sized(m));
    TakeMessageIff(Sized(m), m);
    if SplitsInto(d, h, m) {
      TakeMessageIff(TakeHeader(d).rest, m);
    }
  }

  // ---------------------------------------------------------------- one frame

  /** Eight bytes announce a body exactly when they are what is written before it. */
  lemma PreambleIff(p: Bytes, body: Bytes)
    requires |p| == 8
    ensures Value(p) == MAGIC_NUMBER && Value(p[4..]) == |body| <==> p + body == Packed(body) && |body| < WORD
  {
    var magic, size := Word(MAGIC_NUMBER), Word(|body|);
    assert p == p[..4] + p[4..];
    assert magic + size + body == Packed(body);
    if Value(p) == MAGIC_NUMBER && Value(p[4..]) == |body| {
      WordOfValue(p);
      WordOfValue(p[4..]);
      assert p[4..][..4] == p[4..];
    }
    if p + body == Packed(body) && |body| < WORD {
      SameLengthConcat(p, body, magic + size, body);
      ValueOfWord(MAGIC_NUMBER, size);
      ValueOfWord(|body|, []);
      assert p[4..] == size + [];
    }
  }

  /** Nothing cuts the preamble or the body of the next frame in two. */
  predicate Unsplit(src: Source, bodySize: nat) {
    Fills(src, 8) && Fills(Left(src, 8), bodySize)
  }

  function LeftAfter(src: Source, bodySize: nat): Source {
    Left(Left(src, 8), bodySize)
  }

  /** One read gets the whole of a part exactly when the first segment holds it. */
  lemma ReadsPart(src: Source, part: Bytes, rest: Bytes)
    requires NoEmptySegments(src) && Joined(src) == part + rest && part != []
    ensures |Got(src, |part|)| == |part| <==> Fills(src, |part|)
    ensures Fills(src, |part|) ==>
              && Got(src, |part|) == part && Joined(Left(src, |part|)) == rest
              && NoEmptySegments(Left(src, |part|))
    ensures src != []
  {
    var n := |part|;
    ReadConserves(src, n);
    LeavesNoEmptySegments(src, n);
    if Fills(src, n) {
      assert Got(src, n) == Joined(src)[..n] == part;
      assert Joined(Left(src, n)) == Joined(src)[n..] == rest;
    }
  }

  lemma PackedParts(body: Bytes)
    requires |body| < WORD
    ensures var p := Packed(body)[..8];
            p + body == Packed(body) && Value(p) == MAGIC_NUMBER && Value(p[4..]) == |body|
  {
    var p := Word(MAGIC_NUMBER) + Word(|body|);
    assert p + body == Packed(body);
    assert Packed(body)[..8] == p;
    PreambleIff(p, body);
  }

  /** The next body is delivered whole exactly when no segment ends inside it or its preamble. */
  lemma ReadFrameIff(src: Source, body: Bytes, rest: Bytes)
    requires NoEmptySegments(src) && Joined(src) == Packed(body) + rest
    requires 0 < |body| < WORD
    ensures var (r, s) := ReadFrame(src);
            && (r == Success(body) <==> Unsplit(src, |body|))
            && (r.Success? ==> r.value == body && Joined(s) == rest && NoEmptySegments(s))
            && (r.Failure? ==> r.error in {EndOfInput, NotEnoughBytes})
  {
    var p, s := Packed(body)[..8], Left(src, 8);
    PackedParts(body);
    assert Packed(body) + rest == p + (body + rest);
    ReadsPart(src, p, body + rest);
    if Fills(src, 8) {
      ReadsPart(s, body, rest);
    }
  }

  /** What was accepted is the packed form of the very bytes that were consumed. */
  lemma AcceptedIsPacked(src: Source)
    requires ReadFrame(src).0.Success?
    ensures var body := ReadFrame(src).0.value;
            Joined(src) == Packed(body) + Joined(ReadFrame(src).1) && |body| < WORD
  {
    var p, s := Got(src, 8), Left(src, 8);
    var body, s' := ReadFrame(src).0.value, ReadFrame(src).1;
    ReadConserves(src, 8);
    ReadConserves(s, |body|);
    AnnouncedIsPacked(p, body, Joined(s'));
  }

  lemma AnnouncedIsPacked(p: Bytes, body: Bytes, rest: Bytes)
    requires |p| == 8 && Value(p) == MAGIC_NUMBER && Value(p[4..]) == |body|
    ensures p + (body + rest) == Packed(body) + rest && |body| < WORD
  {
    PreambleIff(p, body);
    Regroup(p, body, rest);
  }

  /** Which error is reported: a wrong magic number, an input that ends before a part, or one that is cut in it. */
  lemma ReadErrorsIff(src: Source)
    requires NoEmptySegments(src)
    ensures var (r, left) := ReadFrame(src);
            && (r == Failure(BadArgument) <==> Fills(src, 8) && src[0][..4] != Word(MAGIC_NUMBER))
            && (Fills(src, 8) && src[0][..4] == Word(MAGIC_NUMBER) ==>
                  var size := Value(src[0][4..8]);
                  && (r == Failure(EndOfInput) <==> |src| == 1 && |src[0]| == 8 && size > 0)
                  && (r.Success? <==> size == 0 || Fills(Left(src, 8), size)))
            && (!Fills(src, 8) ==> r == Failure(if src == [] then EndOfInput else NotEnoughBytes))
  {
    if Fills(src, 8) {
      var p := Got(src, 8);
      assert p == src[0][..8] && p[..4] == src[0][..4] && p[4..] == src[0][4..8];
      WordOfValue(p);
      ValueOfWord(MAGIC_NUMBER, p[4..]);
      assert p[..4] + p[4..] == p;
      LeavesNoEmptySegments(src, 8);
    }
  }

  /** Reading one frame and splitting it. */
  predicate ReadsPair(src: Source, h: Bytes, m: Bytes) {
    ReadFrame(src).0.Success? && SplitsInto(ReadFrame(src).0.value, h, m)
  }

  lemma ReadsPairIff(src: Source, h: Bytes, m: Bytes)
    ensures ReadsPair(src, h, m) <==> ReadFrame(src).0 == Success(Body(h, m)) && Fits(h, m)
  {
    if ReadFrame(src).0.Success? {
      SplitIffBody(ReadFrame(src).0.value, h, m);
      AcceptedIsPacked(src);
    }
  }

  /** A reader that fills its buffer gets the frame back exactly when its two sizes fit their limits. */
  lemma RoundTripIff(h: Bytes, m: Bytes, rest: Bytes)
    ensures ReadsPair(Whole(Frame(h, m) + rest), h, m) <==> |h| <= 2048 && |h| + |m| + 8 < 0x1_0000_0000
    ensures Fits(h, m) ==> ReadFrame(Whole(Frame(h, m) + rest)).1 == Whole(rest)
  {
    ReadsPairIff(Whole(Frame(h, m) + rest), h, m);
    if Fits(h, m) { WholeFrame(Body(h, m), rest); }
  }

  function Whole(b: Bytes): Source {
    if b == [] then [] else [b]
  }

  lemma WholeFrame(body: Bytes, rest: Bytes)
    requires 0 < |body| < WORD
    ensures ReadFrame(Whole(Packed(body) + rest)) == (Success(body), Whole(rest))
  {
    var p := Packed(body)[..8];
    PackedParts(body);
    assert Packed(body) + rest == p + (body + rest);
    ReadsWhole(p, body + rest);
    ReadsWhole(body, rest);
  }

  lemma ReadsWhole(part: Bytes, rest: Bytes)
    requires part != []
    ensures Got(Whole(part + rest), |part|) == part && Left(Whole(part + rest), |part|) == Whole(rest)
  {
  }

  // ---------------------------------------------------------------- streams of frames

  datatype Pair = Pair(h: Bytes, m: Bytes)

  function Encoded(ps: seq<Pair>): Bytes {
    if ps == [] then [] else Frame(ps[0].h, ps[0].m) + Encoded(ps[1..])
  }

  /** Reading and splitting succeed once for each pair, and leave left. */
  predicate ReadsBack(src: Source, ps: seq<Pair>, left: Source)
    decreases |ps|
  {
    if ps == [] then src == left
    else ReadsPair(src, ps[0].h, ps[0].m) && ReadsBack(ReadFrame(src).1, ps[1..], left)
  }

  function BodySize(p: Pair): nat {
    |p.h| + |p.m| + 8
  }

  predicate AllUnsplit(src: Source, ps: seq<Pair>)
    decreases |ps|
  {
    if ps == [] then true
    else Unsplit(src, BodySize(ps[0])) && AllUnsplit(LeftAfter(src, BodySize(ps[0])), ps[1..])
  }

  predicate AllFit(ps: seq<Pair>) {
    ps == [] || (Fits(ps[0].h, ps[0].m) && AllFit(ps[1..]))
  }

  /** No bytes are lost, invented or reordered by reading, however the input is cut. */
  lemma {:induction false} AcceptedIsEncoded(src: Source, ps: seq<Pair>, left: Source)
    requires ReadsBack(src, ps, left)
    ensures Joined(src) == Encoded(ps) + Joined(left) && AllFit(ps)
    decreases |ps|
  {
    if ps == [] {
    } else {
      ReadsPairIff(src, ps[0].h, ps[0].m);
      AcceptedIsPacked(src);
      AcceptedIsEncoded(ReadFrame(src).1, ps[1..], left);
      Regroup(Frame(ps[0].h, ps[0].m), Encoded(ps[1..]), Joined(left));
    }
  }

  lemma JoinsToNothing(src: Source)
    requires NoEmptySegments(src)
    ensures Joined(src) == [] <==> src == []
  {
  }

  lemma NextPairIff(src: Source, h: Bytes, m: Bytes, rest: Bytes)
    requires NoEmptySegments(src) && Joined(src) == Frame(h, m) + rest && Fits(h, m)
    ensures ReadsPair(src, h, m) <==> Unsplit(src, |h| + |m| + 8)
    ensures ReadsPair(src, h, m) ==>
              var s := ReadFrame(src).1;
              s == LeftAfter(src, |h| + |m| + 8) && Joined(s) == rest && NoEmptySegments(s)
  {
    ReadsPairIff(src, h, m);
    ReadFrameIff(src, Body(h, m), rest);
  }

  lemma ReadsPairUnsplit(src: Source, h: Bytes, m: Bytes)
    requires ReadsPair(src, h, m)
    ensures Unsplit(src, |h| + |m| + 8) && ReadFrame(src).1 == LeftAfter(src, |h| + |m| + 8)
  {
    ReadsPairIff(src, h, m);
  }

  /** The input of a list that is not cut anywhere. */
  predicate Uncut(src: Source, ps: seq<Pair>) {
    NoEmptySegments(src) && Joined(src) == Encoded(ps) && AllFit(ps) && AllUnsplit(src, ps)
  }

  lemma UncutNext(src: Source, ps: seq<Pair>) returns (next: Source)
    requires ps != [] && Uncut(src, ps)
    ensures ReadsPair(src, ps[0].h, ps[0].m) && next == ReadFrame(src).1 && Uncut(next, ps[1..])
  {
    next := LeftAfter(src, BodySize(ps[0]));
    NextPairIff(src, ps[0].h, ps[0].m, Encoded(ps[1..]));
  }

  lemma ReadsBackFirst(src: Source, ps: seq<Pair>, next: Source)
    requires ps != [] && ReadsPair(src, ps[0].h, ps[0].m) && next == ReadFrame(src).1 && ReadsBack(next, ps[1..], [])
    ensures ReadsBack(src, ps, [])
  {
  }

  lemma {:induction false} UnsplitReadsBack(src: Source, ps: seq<Pair>)
    requires Uncut(src, ps)
    ensures ReadsBack(src, ps, [])
    decreases |ps|
  {
    if ps == [] {
      JoinsToNothing(src);
    } else {
      var next := UncutNext(src, ps);
      UnsplitReadsBack(next, ps[1..]);
      ReadsBackFirst(src, ps, next);
    }
  }

  lemma ReadsBackNext(src: Source, ps: seq<Pair>, left: Source) returns (next: Source)
    requires ps != [] && ReadsBack(src, ps, left)
    ensures Unsplit(src, BodySize(ps[0])) && next == LeftAfter(src, BodySize(ps[0])) && ReadsBack(next, ps[1..], left)
  {
    next := ReadFrame(src).1;
    ReadsPairUnsplit(src, ps[0].h, ps[0].m);
  }

  lemma AllUnsplitFirst(src: Source, ps: seq<Pair>, next: Source)
    requires ps != [] && Unsplit(src, BodySize(ps[0])) && next == LeftAfter(src, BodySize(ps[0])) && AllUnsplit(next, ps[1..])
    ensures AllUnsplit(src, ps)
  {
  }

  /** Whatever was read was not cut. */
  lemma {:induction false} ReadsBackUnsplit(src: Source, ps: seq<Pair>, left: Source)
    requires ReadsBack(src, ps, left)
    ensures AllUnsplit(src, ps)
    decreases |ps|
  {
    if ps == [] {
    } else {
      var next := ReadsBackNext(src, ps, left);
      ReadsBackUnsplit(next, ps[1..], left);
      AllUnsplitFirst(src, ps, next);
    }
  }

  /** The start of the input, or the end of a segment. */
  predicate Cut(src: Source, c: nat)
    decreases |src|
  {
    c == 0 || (src != [] && c >= |src[0]| && Cut(src[1..], c - |src[0]|))
  }

  /** The start of the encoded list, or the end of a preamble or a body in it. */
  predicate Boundary(ps: seq<Pair>, c: nat)
    decreases |ps|
  {
    c == 0 || (ps != [] && (c == 8 || (c >= 8 + BodySize(ps[0]) && Boundary(ps[1..], c - 8 - BodySize(ps[0])))))
  }

  lemma CutOfLeft(src: Source, n: nat, c: nat)
    requires Fills(src, n)
    ensures Cut(Left(src, n), c) <==> c == 0 || Cut(src, c + n)
  {
    if n < |src[0]| {
      assert Left(src, n)[1..] == src[1..];
    }
  }

  lemma FilledIsUncut(src: Source, n: nat, c: nat)
    requires Fills(src, n) && 0 < c < n
    ensures !Cut(src, c)
  {
  }

  lemma UnfilledIsCut(src: Source, n: nat) returns (c: nat)
    requires NoEmptySegments(src) && n <= |Joined(src)| && 0 < n && !Fills(src, n)
    ensures 0 < c < n && Cut(src, c)
  {
    assert src != [];
    c := |src[0]|;
    assert Cut(src[1..], 0);
  }

  lemma LeftIsShorter(src: Source, n: nat)
    requires NoEmptySegments(src) && Fills(src, n)
    ensures |Joined(Left(src, n))| == |Joined(src)| - n && NoEmptySegments(Left(src, n))
  {
    ReadConserves(src, n);
    LeavesNoEmptySegments(src, n);
  }

  lemma UnsplitIsUncut(src: Source, size: nat, c: nat)
    requires Unsplit(src, size) && 0 < c < 8 + size && c != 8
    ensures !Cut(src, c)
  {
    if c < 8 {
      FilledIsUncut(src, 8, c);
    } else {
      CutOfLeft(src, 8, c - 8);
      FilledIsUncut(Left(src, 8), size, c - 8);
    }
  }

  lemma SplitIsCut(src: Source, size: nat) returns (c: nat)
    requires NoEmptySegments(src) && |Joined(src)| >= 8 + size && size > 0 && !Unsplit(src, size)
    ensures 0 < c < 8 + size && c != 8 && Cut(src, c)
  {
    if !Fills(src, 8) {
      c := UnfilledIsCut(src, 8);
    } else {
      LeftIsShorter(src, 8);
      c := UnfilledIsCut(Left(src, 8), size);
      CutOfLeft(src, 8, c);
      c := c + 8;
    }
  }

  lemma CutsAfter(src: Source, size: nat, c: nat)
    requires Unsplit(src, size)
    ensures Cut(LeftAfter(src, size), c) <==> c == 0 || Cut(src, c + 8 + size)
  {
    CutOfLeft(Left(src, 8), size, c);
    CutOfLeft(src, 8, c + size);
  }

  ghost predicate CutsAtBoundaries(src: Source, ps: seq<Pair>) {
    forall c | Cut(src, c) :: Boundary(ps, c)
  }

  lemma CutsAtBoundariesNext(src: Source, ps: seq<Pair>)
    requires ps != [] && NoEmptySegments(src) && |Joined(src)| >= 8 + BodySize(ps[0])
    ensures CutsAtBoundaries(src, ps) <==>
              Unsplit(src, BodySize(ps[0])) && CutsAtBoundaries(LeftAfter(src, BodySize(ps[0])), ps[1..])
  {
    var size := BodySize(ps[0]);
    if Unsplit(src, size) {
      var next := LeftAfter(src, size);
      if CutsAtBoundaries(src, ps) {
        forall c | Cut(next, c) ensures Boundary(ps[1..], c) {
          CutsAfter(src, size, c);
          BoundaryAfter(ps, c);
        }
      }
      if CutsAtBoundaries(next, ps[1..]) {
        forall c | Cut(src, c) ensures Boundary(ps, c) {
          if c >= 8 + size {
            CutsAfter(src, size, c - 8 - size);
            BoundaryAfter(ps, c - 8 - size);
          } else if c != 0 && c != 8 {
            UnsplitIsUncut(src, size, c);
          }
        }
      }
    } else {
      var c := SplitIsCut(src, size);
      assert !Boundary(ps, c);
    }
  }

  lemma BoundaryAfter(ps: seq<Pair>, c: nat)
    requires ps != []
    ensures Boundary(ps, c + 8 + BodySize(ps[0])) <==> Boundary(ps[1..], c)
  {
    assert c == 0 ==> Boundary(ps[1..], c);
  }

  /** No part is cut exactly when every segment ends where a preamble or a body does. */
  lemma {:induction false} AllUnsplitIffCuts(src: Source, ps: seq<Pair>)
    requires NoEmptySegments(src) && |Joined(src)| == |Encoded(ps)|
    ensures AllUnsplit(src, ps) <==> CutsAtBoundaries(src, ps)
    decreases |ps|
  {
    if ps == [] {
      JoinsToNothing(src);
    } else {
      var size := BodySize(ps[0]);
      CutsAtBoundariesNext(src, ps);
      if Unsplit(src, size) {
        LeftIsShorter(src, 8);
        LeftIsShorter(Left(src, 8), size);
        AllUnsplitIffCuts(LeftAfter(src, size), ps[1..]);
      }
    }
  }

  /**
   An encoded list is split back into the same pairs exactly when every segment of the input ends
   where a preamble or a body does.
   */
  lemma StreamRoundTripIff(src: Source, ps: seq<Pair>)
    requires NoEmptySegments(src) && Joined(src) == Encoded(ps) && AllFit(ps)
    ensures ReadsBack(src, ps, []) <==> CutsAtBoundaries(src, ps)
  {
    AllUnsplitIffCuts(src, ps);
    if AllUnsplit(src, ps) { UnsplitReadsBack(src, ps); }
    if ReadsBack(src, ps, []) { ReadsBackUnsplit(src, ps, []); }
  }

  /** A reader that fills its buffers splits every encoded list back, with nothing left over. */
  lemma {:induction false} FilledBuffersReadBack(ps: seq<Pair>, rest: Bytes)
    requires AllFit(ps)
    ensures ReadsBack(Whole(Encoded(ps) + rest), ps, Whole(rest))
    decreases |ps|
  {
    if ps == [] {
      assert Encoded(ps) + rest == rest;
    } else {
      var tail := Encoded(ps[1..]) + rest;
      Regroup(Frame(ps[0].h, ps[0].m), Encoded(ps[1..]), rest);
      RoundTripIff(ps[0].h, ps[0].m, tail);
      FilledBuffersReadBack(ps[1..], rest);
    }
  }

  // ---------------------------------------------------------------- decoding

  datatype Header = Header(kind: nat, route: string)

  /** The marshalling library: what it makes of bytes, and which type names it knows. */
  datatype Library<!M> = Library(
    header: Bytes -> Option<Header>,
    message: (nat, Bytes) -> Option<M>,
    known: map<nat, nat>,
    messages: set<nat>)

  /** The routes with an interest; a route without a type has None. None in place of the map stands for nil. */
  type Interests = Option<map<string, Option<nat>>>

  datatype Decoded<M> =
    | Decoded(hdr: Header, msg: Option<M>)
    | Undecoded(partial: Option<Header>, error: Error)
    | Crashed

  function Unmarshalled<M>(lib: Library<M>, h: Header, t: nat, m: Bytes): Decoded<M> {
    match lib.message(t, m)
    case None => Undecoded(Some(h), Malformed)
    case Some(msg) => Decoded(h, Some(msg))
  }

  /** A known type decides; otherwise the interest in the header's route does. */
  function Resolved<M>(lib: Library<M>, interests: Interests, h: Header, m: Bytes): Decoded<M> {
    if h.kind in lib.known then
      if lib.known[h.kind] in lib.messages then Unmarshalled(lib, h, lib.known[h.kind], m) else Crashed
    else if interests.None? then Decoded(h, None)
    else if h.route !in interests.value then Undecoded(Some(h), NoInterest)
    else if interests.value[h.route].None? then Undecoded(Some(h), InvalidType)
    else if interests.value[h.route].value !in lib.messages then Undecoded(Some(h), InvalidRoute)
    else Unmarshalled(lib, h, interests.value[h.route].value, m)
  }

  function Decode<M>(lib: Library<M>, interests: Interests, d: Bytes): Decoded<M> {
    var first := TakeHeader(d);
    if first.Panics? then Crashed
    else if first.Rejected? then Undecoded(None, NotEnoughBytes)
    else
      match lib.header(first.bytes)
      case None => Undecoded(None, Malformed)
      case Some(h) =>
        var second := TakeMessage(first.rest);
        if second.Panics? then Crashed
        else if second.Rejected? then Undecoded(Some(h), NotEnoughBytes)
        else Resolved(lib, interests, h, second.bytes)
  }

  method DecodeMessage<M>(lib: Library<M>, interests: Interests, frame: Bytes) returns (r: Decoded<M>)
    ensures r == Decode(lib, interests, frame)
  {
    var data := frame;
    if |data| < 4 {
      return Crashed;
    }
    var hSize := Value(data);
    data := data[4..];
    if hSize > |data| || hSize > MAX_HEADER {
      return Undecoded(None, NotEnoughBytes);
    }
    assert data[..hSize] == frame[4..4 + hSize];
    var hdr := lib.header(data[..hSize]);
    if hdr.None? {
      return Undecoded(None, Malformed);
    }
    data := data[hSize..];
    assert data == frame[4 + hSize..];
    if |data| < 4 {
      return Crashed;
    }
    var mSize := Value(data);
    data := data[4..];
    if mSize != |data| {
      return Undecoded(hdr, NotEnoughBytes);
    }
    r := Resolved(lib, interests, hdr.value, data);
  }

  /** The type that decides how a message of this header is read, if there is one. */
  function DecidingType<M>(lib: Library<M>, interests: Interests, h: Header): Option<nat> {
    if h.kind in lib.known then Some(lib.known[h.kind])
    else if interests.Some? && h.route in interests.value then interests.value[h.route]
    else None
  }

  /** A sent message is received as itself exactly when some deciding type reads it so. */
  lemma DecodeRoundTripIff<M>(lib: Library<M>, interests: Interests, h: Bytes, m: Bytes, hdr: Header, msg: M)
    requires Fits(h, m) && lib.header(h) == Some(hdr)
    ensures Decode(lib, interests, Body(h, m)) == Decoded(hdr, Some(msg))
            <==> var t := DecidingType(lib, interests, hdr);
                 t.Some? && t.value in lib.messages && lib.message(t.value, m) == Some(msg)
  {
    SplitIffBody(Body(h, m), h, m);
  }

  /** A frame whose parts are all there, and no deciding type: which error its receiver reports. */
  lemma UndecodedIff<M>(lib: Library<M>, interests: Interests, h: Bytes, m: Bytes, hdr: Header)
    requires Fits(h, m) && lib.header(h) == Some(hdr) && hdr.kind !in lib.known
    ensures var d := Decode(lib, interests, Body(h, m));
            && (d == Undecoded(Some(hdr), NoInterest) <==> interests.Some? && hdr.route !in interests.value)
            && (d == Undecoded(Some(hdr), InvalidType) <==>
                  interests.Some? && hdr.route in interests.value && interests.value[hdr.route] == None)
            && (d == Decoded(hdr, None) <==> interests.None?)
            && !d.Crashed?
  {
    SplitIffBody(Body(h, m), h, m);
  }

  /** And one whose header the library cannot read. */
  lemma BadHeaderIsMalformed<M>(lib: Library<M>, interests: Interests, h: Bytes, m: Bytes)
    requires Fits(h, m) && lib.header(h) == None
    ensures Decode(lib, interests, Body(h, m)) == Undecoded(None, Malformed)
  {
    SplitIffBody(Body(h, m), h, m);
  }

  /** Nothing else decodes: every accepted frame body is the encoding of a header and a message. */
  lemma DecodedIsBody<M>(lib: Library<M>, interests: Interests, d: Bytes)
    requires Decode(lib, interests, d).Decoded?
    ensures exists h, m :: d == Body(h, m) && |h| <= MAX_HEADER && lib.header(h) == Some(Decode(lib, interests, d).hdr)
  {
    var h, m := TakeHeader(d).bytes, TakeMessage(TakeHeader(d).rest).bytes;
    SplitIffBody(d, h, m);
  }
}
