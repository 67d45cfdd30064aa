/** Named and typed data routes: plain `Type@path` and hashed `prefix#hash`. */
module Routes {
  import opened Wrappers

  type Digest = d: seq<Byte> | |d| == 20 witness seq(20, _ => 0)

  datatype RouteError = InvalidRoute | InvalidRoutePrefix

  /** A route that came from a remote endpoint has no message type. */
  datatype Route =
    | Plain(route: string, path: string, msgType: Option<string>)
    | Hashed(route: string, prefix: string, msgType: Option<string>)
  {
    function ID(): string {
      route
    }

    function String(): string {
      if Plain? then route else prefix + "#" + route
    }

    predicate Equal(other: Route) {
      ID() == other.ID()
    }
  }

  function RouteString(path: string, msgName: string): string {
    msgName + "@" + path
  }

  function NewRoute(path: string, msgName: string, msgType: string): Result<Route, RouteError> {
    if path == "" || '@' in path || '#' in path then Failure(InvalidRoute)
    else Success(Plain(RouteString(path, msgName), path, Some(msgType)))
  }

  function NewHashedRoute(prefix: string, path: string, msgName: string, msgType: string, sha1: string -> Digest)
    : Result<Route, RouteError>
  {
    if path == "" then Failure(InvalidRoute)
    else if prefix == "" || |prefix| > |path| then Failure(InvalidRoutePrefix)
    else if '@' in prefix || '#' in prefix then Failure(InvalidRoute)
    else if !(prefix <= path) then Failure(InvalidRoutePrefix)
    else Success(Hashed(RawStdEncode(sha1(RouteString(path, msgName))), prefix, Some(msgType)))
  }

  // ---------------------------------------------------------------- base64 without padding

  /** The alphabet of section 4 of RFC 4648. */
  function Letter(v: int): char
    requires 0 <= v < 64
  {
    if v < 26 then ('A' as int + v) as char
    else if v < 52 then ('a' as int + v - 26) as char
    else if v < 62 then ('0' as int + v - 52) as char
    else if v == 62 then '+' else '/'
  }

  function RawStdEncode(bytes: seq<Byte>): string {
    if bytes == [] then ""
    else if |bytes| == 1 then [Letter(bytes[0] / 4), Letter(bytes[0] % 4 * 16)]
    else
      var low := [Letter(bytes[0] / 4), Letter(bytes[0] % 4 * 16 + bytes[1] / 16)];
      if |bytes| == 2 then low + [Letter(bytes[1] % 16 * 4)]
      else low + [Letter(bytes[1] % 16 * 4 + bytes[2] / 64), Letter(bytes[2] % 64)] + RawStdEncode(bytes[3..])
  }

  /** Capitals, small letters, digits, then '+' and '/'. */
  lemma LettersRunOn(v: int)
    requires 0 <= v < 63
    ensures Letter(0) == 'A' && Letter(26) == 'a' && Letter(52) == '0' && Letter(62) == '+' && Letter(63) == '/'
    ensures v !in {25, 51, 61, 62} ==> Letter(v + 1) as int == Letter(v) as int + 1
  {
  }

  /** Test vectors of section 10 of RFC 4648: "f", "fo", "foo" and "foobar", without padding. */
  lemma StandardVectors()
    ensures RawStdEncode([]) == "" && RawStdEncode([0x66]) == "Zg" && RawStdEncode([0x66, 0x6F]) == "Zm8"
    ensures RawStdEncode([0x66, 0x6F, 0x6F]) == "Zm9v"
    ensures RawStdEncode([0x66, 0x6F, 0x6F, 0x62, 0x61, 0x72]) == "Zm9vYmFy"
  {
    var foobar: seq<Byte> := [0x66, 0x6F, 0x6F, 0x62, 0x61, 0x72];
    assert foobar[3..] == [0x62, 0x61, 0x72];
    assert [0x62, 0x61, 0x72][3..] == [] && [0x66, 0x6F, 0x6F][3..] == [];
    assert RawStdEncode([0x62, 0x61, 0x72]) == "YmFy";
  }

  lemma LetterIsInjective(v: int, w: int)
    requires 0 <= v < 64 && 0 <= w < 64 && Letter(v) == Letter(w)
    ensures v == w
  {
  }

  lemma GroupIsInjective(a: seq<Byte>, b: seq<Byte>)
    requires |a| == |b| == 3 && a[0] / 4 == b[0] / 4 && a[2] % 64 == b[2] % 64
    requires a[0] % 4 * 16 + a[1] / 16 == b[0] % 4 * 16 + b[1] / 16
    requires a[1] % 16 * 4 + a[2] / 64 == b[1] % 16 * 4 + b[2] / 64
    ensures a == b
  {
  }

  /** Three bytes and whatever follows: four letters, then the encoding of the rest. */
  lemma GroupLetters(a: seq<Byte>)
    requires |a| >= 3
    ensures var e := RawStdEncode(a);
            && |e| >= 4 && e[4..] == RawStdEncode(a[3..])
            && e[0] == Letter(a[0] / 4) && e[1] == Letter(a[0] % 4 * 16 + a[1] / 16)
            && e[2] == Letter(a[1] % 16 * 4 + a[2] / 64) && e[3] == Letter(a[2] % 64)
  {
  }

  lemma FirstGroup(a: seq<Byte>, b: seq<Byte>)
    requires |a| >= 3 && |b| >= 3 && RawStdEncode(a) == RawStdEncode(b)
    ensures a[..3] == b[..3] && RawStdEncode(a[3..]) == RawStdEncode(b[3..])
  {
    GroupLetters(a);
    GroupLetters(b);
    LetterIsInjective(a[0] / 4, b[0] / 4);
    LetterIsInjective(a[0] % 4 * 16 + a[1] / 16, b[0] % 4 * 16 + b[1] / 16);
    LetterIsInjective(a[1] % 16 * 4 + a[2] / 64, b[1] % 16 * 4 + b[2] / 64);
    LetterIsInjective(a[2] % 64, b[2] % 64);
    GroupIsInjective(a[..3], b[..3]);
  }

  lemma LastTwo(a: seq<Byte>, b: seq<Byte>)
    requires |a| == |b| == 2 && RawStdEncode(a) == RawStdEncode(b)
    ensures a == b
  {
    TwoLetters(a);
    TwoLetters(b);
    LetterIsInjective(a[0] / 4, b[0] / 4);
    LetterIsInjective(a[0] % 4 * 16 + a[1] / 16, b[0] % 4 * 16 + b[1] / 16);
    LetterIsInjective(a[1] % 16 * 4, b[1] % 16 * 4);
    GroupIsInjective(a + [0], b + [0]);
    assert (a + [0])[..2] == a && (b + [0])[..2] == b;
  }

  lemma TwoLetters(a: seq<Byte>)
    requires |a| == 2
    ensures RawStdEncode(a) == [Letter(a[0] / 4), Letter(a[0] % 4 * 16 + a[1] / 16), Letter(a[1] % 16 * 4)]
  {
  }

  lemma Rejoin(a: seq<Byte>, b: seq<Byte>)
    requires |a| >= 3 && |b| >= 3 && a[..3] == b[..3] && a[3..] == b[3..]
    ensures a == b
  {
    assert a == a[..3] + a[3..] && b == b[..3] + b[3..];
  }

  /** Byte strings that leave two bytes after k groups of three, as digests do, have different encodings. */
  lemma {:induction false} EncodingIsInjective(a: seq<Byte>, b: seq<Byte>, k: nat)
    requires |a| == |b| == 3 * k + 2 && RawStdEncode(a) == RawStdEncode(b)
    ensures a == b
  {
    if k == 0 {
      LastTwo(a, b);
    } else {
      FirstGroup(a, b);
      EncodingIsInjective(a[3..], b[3..], k - 1);
      Rejoin(a, b);
    }
  }

  // ---------------------------------------------------------------- parsing

  function Split(s: string, sep: char): (parts: seq<string>)
    ensures |parts| >= 1
    ensures |parts| == 1 <==> sep !in s
  {
    if s == "" then [""]
    else
      var rest := Split(s[1..], sep);
      if s[0] == sep then [""] + rest else [[s[0]] + rest[0]] + rest[1..]
  }

  function PlainRouteFromString(text: string): Result<Route, RouteError> {
    var parts := Split(text, '@');
    if |parts| != 2 || parts[0] == "" || parts[1] == "" then Failure(InvalidRoute)
    else Success(Plain(text, parts[1], None))
  }

  function HashedRouteFromString(text: string): Result<Route, RouteError> {
    var parts := Split(text, '#');
    if |parts| != 2 || parts[1] == "" then Failure(InvalidRoute)
    else Success(Hashed(parts[1], parts[0], None))
  }

  function RouteFromString(text: string): Result<Route, RouteError> {
    if '@' in text then PlainRouteFromString(text)
    else if '#' in text then HashedRouteFromString(text)
    else Failure(InvalidRoute)
  }

  // ---------------------------------------------------------------- properties

  lemma {:induction false} SplitNowhere(s: string, sep: char)
    requires sep !in s
    ensures Split(s, sep) == [s]
  {
    if s != "" {
      SplitNowhere(s[1..], sep);
      assert [s[0]] + s[1..] == s;
    }
  }

  lemma {:induction false} SplitOnce(a: string, b: string, sep: char)
    requires sep !in a && sep !in b
    ensures Split(a + [sep] + b, sep) == [a, b]
  {
    var s := a + [sep] + b;
    if a == "" {
      assert s[1..] == b;
      SplitNowhere(b, sep);
    } else {
      assert s[1..] == a[1..] + [sep] + b;
      SplitOnce(a[1..], b, sep);
      assert [a[0]] + a[1..] == a;
    }
  }

  /** A string splits in two exactly where its only separator stands. */
  lemma {:induction false} SplitInTwo(s: string, sep: char)
    requires |Split(s, sep)| == 2
    ensures var parts := Split(s, sep); s == parts[0] + [sep] + parts[1] && sep !in parts[0] && sep !in parts[1]
  {
    if s != "" {
      if s[0] == sep {
        SplitNowhere(s[1..], sep);
      } else {
        SplitInTwo(s[1..], sep);
      }
    }
  }

  lemma {:induction false} EncodingAvoids(bytes: seq<Byte>)
    ensures '@' !in RawStdEncode(bytes) && '#' !in RawStdEncode(bytes)
    ensures bytes != [] ==> RawStdEncode(bytes) != ""
  {
    if |bytes| > 2 {
      EncodingAvoids(bytes[3..]);
    }
  }

  /** When a plain route is made: its path is not empty and has neither separator. */
  lemma NewRouteIff(path: string, msgName: string, msgType: string)
    ensures var r := NewRoute(path, msgName, msgType);
            && (r.Success? <==> path != "" && forall i | 0 <= i < |path| :: path[i] != '@' && path[i] != '#')
            && (r.Failure? ==> r.error == InvalidRoute)
            && (r.Success? ==>
                  && r.value.ID() == r.value.String() == msgName + "@" + path
                  && r.value.path == path && r.value.msgType == Some(msgType))
  {
  }

  /** When a hashed route is made: its prefix is a non-empty prefix of the path without separators. */
  lemma NewHashedRouteIff(prefix: string, path: string, msgName: string, msgType: string, sha1: string -> Digest)
    ensures var r := NewHashedRoute(prefix, path, msgName, msgType, sha1);
            && (r.Success? <==>
                  prefix != "" && prefix <= path && forall i | 0 <= i < |prefix| :: prefix[i] != '@' && prefix[i] != '#')
            && (r == Failure(InvalidRoute) <==>
                  path == "" || (prefix != "" && |prefix| <= |path| && ('@' in prefix || '#' in prefix)))
            && (r.Success? ==>
                  && r.value.ID() == RawStdEncode(sha1(msgName + "@" + path))
                  && r.value.String() == prefix + "#" + r.value.ID() && r.value.msgType == Some(msgType))
  {
  }

  /** Hashed routes share an id exactly when the digests of their names and paths are equal; the prefix has no part in it. */
  lemma HashedIdsEqualIff(prefix: string, path: string, msgName: string, msgType: string,
                          prefix': string, path': string, msgName': string, msgType': string, sha1: string -> Digest)
    requires NewHashedRoute(prefix, path, msgName, msgType, sha1).Success?
    requires NewHashedRoute(prefix', path', msgName', msgType', sha1).Success?
    ensures NewHashedRoute(prefix, path, msgName, msgType, sha1).value.Equal(
              NewHashedRoute(prefix', path', msgName', msgType', sha1).value)
            <==> sha1(msgName + "@" + path) == sha1(msgName' + "@" + path')
  {
    var d, d' := sha1(RouteString(path, msgName)), sha1(RouteString(path', msgName'));
    if RawStdEncode(d) == RawStdEncode(d') { EncodingIsInjective(d, d', 6); }
  }

  /** A plain route is recovered from its text exactly when the message name is usable. */
  lemma PlainRoundTripIff(path: string, msgName: string, msgType: string)
    requires NewRoute(path, msgName, msgType).Success?
    ensures var r := NewRoute(path, msgName, msgType).value;
            RouteFromString(r.String()) == Success(r.(msgType := None)) <==> msgName != "" && '@' !in msgName
  {
    var r := NewRoute(path, msgName, msgType).value;
    assert r.String()[|msgName|] == '@';
    if '@' !in msgName {
      SplitOnce(msgName, path, '@');
    } else if |Split(r.String(), '@')| == 2 {
      SplitInTwo(r.String(), '@');
      var i :| 0 <= i < |msgName| && msgName[i] == '@';
      var parts := Split(r.String(), '@');
      assert r.String() == parts[0] + ['@'] + parts[1];
      assert r.String()[i] == '@' && r.String()[|msgName|] == '@';
      OnlyOne(parts[0], parts[1], '@', i, |msgName|);
    }
  }

  lemma OnlyOne(a: string, b: string, sep: char, i: nat, j: nat)
    requires sep !in a && sep !in b
    requires i < |a| + 1 + |b| && j < |a| + 1 + |b|
    requires (a + [sep] + b)[i] == sep && (a + [sep] + b)[j] == sep
    ensures i == j
  {
  }

  lemma HashedRoundTrip(prefix: string, path: string, msgName: string, msgType: string, sha1: string -> Digest)
    requires NewHashedRoute(prefix, path, msgName, msgType, sha1).Success?
    ensures var r := NewHashedRoute(prefix, path, msgName, msgType, sha1).value;
            RouteFromString(r.String()) == Success(r.(msgType := None))
  {
    var r := NewHashedRoute(prefix, path, msgName, msgType, sha1).value;
    EncodingAvoids(sha1(RouteString(path, msgName)));
    SplitOnce(prefix, r.route, '#');
    assert r.String()[|prefix|] == '#';
  }

  /** What is accepted: one '@' between two texts, or else one '#' before a text. */
  lemma AcceptedIff(text: string)
    ensures RouteFromString(text).Success? <==>
              || (exists a, b :: text == a + "@" + b && '@' !in a && '@' !in b && a != "" && b != "")
              || ('@' !in text && exists a, b :: text == a + "#" + b && '#' !in a && '#' !in b && b != "")
  {
    if RouteFromString(text).Success? {
      SplitInTwo(text, if '@' in text then '@' else '#');
    }
    if a, b :| text == a + "@" + b && '@' !in a && '@' !in b && a != "" && b != "" {
      assert text[|a|] == '@';
      SplitOnce(a, b, '@');
    }
    if '@' !in text {
      if a, b :| text == a + "#" + b && '#' !in a && '#' !in b && b != "" {
        assert text[|a|] == '#';
        SplitOnce(a, b, '#');
      }
    }
  }

  lemma AcceptedIsReprinted(text: string)
    requires RouteFromString(text).Success?
    ensures RouteFromString(text).value.String() == text
    ensures RouteFromString(text).value.msgType == None
    ensures match RouteFromString(text).value
            case Plain(_, path, _) => |path| < |text| && text[|text| - |path| - 1..] == "@" + path && '@' !in path
            case Hashed(hash, prefix, _) => text == prefix + "#" + hash && '#' !in hash
  {
    SplitInTwo(text, if '@' in text then '@' else '#');
  }

  lemma PlainAndHashedNeverCollide(path: string, msgName: string, msgType: string,
                                   prefix: string, path': string, msgName': string, msgType': string, sha1: string -> Digest)
    requires NewRoute(path, msgName, msgType).Success?
    requires NewHashedRoute(prefix, path', msgName', msgType', sha1).Success?
    ensures !NewRoute(path, msgName, msgType).value.Equal(NewHashedRoute(prefix, path', msgName', msgType', sha1).value)
  {
    EncodingAvoids(sha1(RouteString(path', msgName')));
    assert NewRoute(path, msgName, msgType).value.ID()[|msgName|] == '@';
  }

  /** The id of a plain route determines both the message name and the path. */
  lemma PlainIdsAreInjective(path: string, msgName: string, msgType: string,
                             path': string, msgName': string, msgType': string)
    requires NewRoute(path, msgName, msgType).Success? && NewRoute(path', msgName', msgType').Success?
    ensures NewRoute(path, msgName, msgType).value.Equal(NewRoute(path', msgName', msgType').value)
            <==> msgName == msgName' && path == path'
  {
    var id, id' := RouteString(path, msgName), RouteString(path', msgName');
    if id == id' {
      assert id[|msgName|] == '@' && id'[|msgName'|] == '@';
      assert forall j | |msgName| < j < |id| :: id[j] == path[j - |msgName| - 1];
      assert forall j | |msgName'| < j < |id'| :: id'[j] == path'[j - |msgName'| - 1];
      assert |msgName| == |msgName'|;
      assert msgName == id[..|msgName|] == msgName' && path == id[|msgName| + 1..] == path';
    }
  }

  /** The id of a hashed route, unlike its text, is not accepted by the parser. */
  lemma HashedIdIsRejected(prefix: string, path: string, msgName: string, msgType: string, sha1: string -> Digest)
    requires NewHashedRoute(prefix, path, msgName, msgType, sha1).Success?
    ensures RouteFromString(NewHashedRoute(prefix, path, msgName, msgType, sha1).value.ID()) == Failure(InvalidRoute)
  {
    EncodingAvoids(sha1(RouteString(path, msgName)));
  }

  // ---------------------------------------------------------------- ids on the wire

  /** Shape shared by the ids of both kinds of route; an id that parses is its own id again. */
  predicate IsRouteId(text: string) {
    '@' in text || '#' !in text
  }

  lemma IdParsesToItself(text: string)
    requires IsRouteId(text) && RouteFromString(text).Success?
    ensures RouteFromString(text).value.ID() == text
  {
  }
}
