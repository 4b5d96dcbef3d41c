/** Base64 with padding (RFC 4648 section 4), as `base64.b64encode` and `ubinascii.a2b_base64` have it. */
module Base64 {
  import opened Wrappers
  import opened Bytes

  type Sextet = v: nat | v < 64

  function Digit(v: Sextet): char {
    if v < 26 then 'A' + v as char
    else if v < 52 then 'a' + (v - 26) as char
    else if v < 62 then '0' + (v - 52) as char
    else if v == 62 then '+' else '/'
  }

  function Undigit(c: char): Option<Sextet> {
    if 'A' <= c <= 'Z' then Some((c - 'A') as nat)
    else if 'a' <= c <= 'z' then Some((c - 'a') as nat + 26)
    else if '0' <= c <= '9' then Some((c - '0') as nat + 52)
    else if c == '+' then Some(62)
    else if c == '/' then Some(63)
    else None
  }

  lemma {:induction false} DigitRoundTrip(v: Sextet)
    ensures Undigit(Digit(v)) == Some(v) && Digit(v) != '='
  {
  }

  lemma {:induction false} UndigitRoundTrip(c: char)
    ensures Undigit(c).Some? ==> Digit(Undigit(c).value) == c
  {
  }

  // ------------------------------------------------------------------ three bytes, four sextets

  function P(x: byte): Sextet { x / 4 }
  function Q(x: byte, y: byte): Sextet { x % 4 * 16 + y / 16 }
  function R(y: byte, z: byte): Sextet { y % 16 * 4 + z / 64 }
  function T(z: byte): Sextet { z % 64 }
  function LastQ(x: byte): Sextet { x % 4 * 16 }
  function LastR(y: byte): Sextet { y % 16 * 4 }

  function X(p: Sextet, q: Sextet): byte { p as int * 4 + q as int / 16 }
  function Y(q: Sextet, r: Sextet): byte { q as int % 16 * 16 + r as int / 4 }
  function Z(r: Sextet, t: Sextet): byte { r as int % 4 * 64 + t as int }

  lemma {:induction false} Regrouped(x: byte, y: byte, z: byte)
    ensures X(P(x), Q(x, y)) == x && Y(Q(x, y), R(y, z)) == y && Z(R(y, z), T(z)) == z
  {
  }

  lemma {:induction false} RegroupedTwo(x: byte, y: byte)
    ensures X(P(x), Q(x, y)) == x && Y(Q(x, y), LastR(y)) == y && LastR(y) % 4 == 0
  {
  }

  lemma {:induction false} RegroupedOne(x: byte)
    ensures X(P(x), LastQ(x)) == x && LastQ(x) % 16 == 0
  {
  }

  lemma {:induction false} Ungrouped(p: Sextet, q: Sextet, r: Sextet, t: Sextet)
    ensures P(X(p, q)) == p && Q(X(p, q), Y(q, r)) == q && R(Y(q, r), Z(r, t)) == r && T(Z(r, t)) == t
  {
  }

  lemma {:induction false} UngroupedThree(p: Sextet, q: Sextet, r: Sextet)
    requires r % 4 == 0
    ensures P(X(p, q)) == p && Q(X(p, q), Y(q, r)) == q && LastR(Y(q, r)) == r
  {
  }

  lemma {:induction false} UngroupedTwo(p: Sextet, q: Sextet)
    requires q % 16 == 0
    ensures P(X(p, q)) == p && LastQ(X(p, q)) == q
  {
  }

  // ------------------------------------------------------------------ the codec

  function Encode(b: seq<byte>): string {
    if b == [] then ""
    else if |b| == 1 then [Digit(P(b[0])), Digit(LastQ(b[0])), '=', '=']
    else if |b| == 2 then [Digit(P(b[0])), Digit(Q(b[0], b[1])), Digit(LastR(b[1])), '=']
    else [Digit(P(b[0])), Digit(Q(b[0], b[1])), Digit(R(b[1], b[2])), Digit(T(b[2]))] + Encode(b[3..])
  }

  /** Table 1: letters, small letters, figures, and two signs, each run in order. */
  lemma {:induction false} AlphabetIs()
    ensures Digit(0) == 'A' && Digit(25) == 'Z' && Digit(26) == 'a' && Digit(51) == 'z'
    ensures Digit(52) == '0' && Digit(61) == '9' && Digit(62) == '+' && Digit(63) == '/'
    ensures forall v: Sextet :: v < 61 && v != 25 && v != 51 ==> Digit(v + 1) as int == Digit(v) as int + 1
  {
  }

  /** Sextet k of a 24-bit number, most significant first. */
  function DigitOf(n: nat, k: nat): char
    requires k < 4
  {
    Digit((match k case 0 => n / 64 / 64 / 64 case 1 => n / 64 / 64 case 2 => n / 64 case _ => n) % 64)
  }

  /** An encoding takes three bytes at a time, as one number of 24 bits; one or two left over are filled up
      with zero bits, and the digits that hold none of theirs are padding. */
  lemma {:induction false} EncodingIsStandard(b: seq<byte>)
    requires b != []
    ensures var (y, z) := (if |b| > 1 then b[1] else 0, if |b| > 2 then b[2] else 0);
            var n := Group(b[0], y, z);
            Encode(b) == [DigitOf(n, 0), DigitOf(n, 1)]
                         + (if |b| > 1 then [DigitOf(n, 2)] else "=") + (if |b| > 2 then [DigitOf(n, 3)] else "=")
                         + (if |b| > 3 then Encode(b[3..]) else "")
  {
    var (y, z) := (if |b| > 1 then b[1] else 0, if |b| > 2 then b[2] else 0);
    GroupDigits(b[0], y, z);
    if |b| == 3 { assert b[3..] == []; }
  }

  function Group(x: nat, y: nat, z: nat): nat { 65536 * x + 256 * y + z }

  lemma {:induction false} GroupDigits(x: byte, y: byte, z: byte)
    ensures var n := Group(x, y, z);
            Digit(P(x)) == DigitOf(n, 0) && Digit(Q(x, y)) == DigitOf(n, 1)
            && Digit(R(y, z)) == DigitOf(n, 2) && Digit(T(z)) == DigitOf(n, 3)
    ensures y == 0 ==> LastQ(x) == Q(x, y)
    ensures z == 0 ==> LastR(y) == R(y, z)
  {
    hide Digit;
    var n := Group(x, y, z);
    By64(n, 1024 * x + 4 * y + z / 64, z % 64);
    By64(1024 * x + 4 * y + z / 64, 16 * x + y / 16, 4 * (y % 16) + z / 64);
    By64(16 * x + y / 16, x / 4, 16 * (x % 4) + y / 16);
  }

  lemma {:induction false} By64(n: nat, q: nat, r: nat)
    requires n == 64 * q + r && r < 64
    ensures n / 64 == q && n % 64 == r
  {
  }

  /** The values of the digits before any padding. */
  function Values(s: string): Option<seq<Sextet>> {
    if s == "" then Some([])
    else
      match (Undigit(s[0]), Values(s[1..]))
      case (Some(v), Some(rest)) => Some([v] + rest)
      case _ => None
  }

  /** A strict decoder: padding only at the end, and no stray bits under it. */
  function Decode(s: string): Option<seq<byte>> {
    if s == "" then Some([])
    else if |s| < 4 then None
    else if |s| == 4 && s[2] == '=' && s[3] == '=' then
      match Values(s[..2])
      case Some(v) => if |v| == 2 && v[1] % 16 == 0 then Some([X(v[0], v[1])]) else None
      case None => None
    else if |s| == 4 && s[3] == '=' then
      match Values(s[..3])
      case Some(v) => if |v| == 3 && v[2] % 4 == 0 then Some([X(v[0], v[1]), Y(v[1], v[2])]) else None
      case None => None
    else
      match (Values(s[..4]), Decode(s[4..]))
      case (Some(v), Some(rest)) => if |v| == 4 then Some([X(v[0], v[1]), Y(v[1], v[2]), Z(v[2], v[3])] + rest) else None
      case _ => None
  }

  function Digits(v: seq<Sextet>): (s: string)
    ensures |s| == |v| && forall i :: 0 <= i < |v| ==> s[i] == Digit(v[i])
  {
    if v == [] then "" else [Digit(v[0])] + Digits(v[1..])
  }

  lemma {:induction false} ValuesOfDigits(v: seq<Sextet>)
    ensures Values(Digits(v)) == Some(v)
    ensures forall c :: c in Digits(v) ==> Undigit(c).Some? && c != '='
  {
    if v != [] {
      DigitRoundTrip(v[0]);
      ValuesOfDigits(v[1..]);
      assert Digits(v)[1..] == Digits(v[1..]);
      assert v == [v[0]] + v[1..];
    }
  }

  lemma {:induction false} DigitsOfValues(s: string)
    requires Values(s).Some?
    ensures |Values(s).value| == |s| && Digits(Values(s).value) == s
  {
    if s != "" {
      UndigitRoundTrip(s[0]);
      DigitsOfValues(s[1..]);
      var v := Values(s).value;
      assert v[1..] == Values(s[1..]).value;
    }
  }

  /** Decoding undoes encoding. */
  lemma {:induction false} EncodeRoundTrip(b: seq<byte>)
    ensures Decode(Encode(b)) == Some(b)
  {
    if |b| == 1 {
      assert b == [b[0]];
      EncodeOne(b[0]);
    } else if |b| == 2 {
      assert b == [b[0], b[1]];
      EncodeTwo(b[0], b[1]);
    } else if b != [] {
      EncodeRoundTrip(b[3..]);
      assert b == [b[0], b[1], b[2]] + b[3..];
      EncodeThree(b[0], b[1], b[2], b[3..]);
    }
  }

  lemma {:induction false} EncodeOne(x: byte)
    ensures Decode(Encode([x])) == Some([x])
  {
    RegroupedOne(x);
    DecodePair([P(x), LastQ(x)]);
  }

  lemma {:induction false} EncodeTwo(x: byte, y: byte)
    ensures Decode(Encode([x, y])) == Some([x, y])
  {
    RegroupedTwo(x, y);
    DecodeTriple([P(x), Q(x, y), LastR(y)]);
  }

  lemma {:induction false} EncodeThree(x: byte, y: byte, z: byte, rest: seq<byte>)
    requires Decode(Encode(rest)) == Some(rest)
    ensures Decode(Encode([x, y, z] + rest)) == Some([x, y, z] + rest)
  {
    assert ([x, y, z] + rest)[3..] == rest;
    Regrouped(x, y, z);
    DecodeQuad([P(x), Q(x, y), R(y, z), T(z)], Encode(rest));
  }

  lemma {:induction false} DecodePair(v: seq<Sextet>)
    requires |v| == 2 && v[1] % 16 == 0
    ensures Decode([Digit(v[0]), Digit(v[1]), '=', '=']) == Some([X(v[0], v[1])])
  {
    var s := [Digit(v[0]), Digit(v[1]), '=', '='];
    ValuesOfDigits(v);
    assert s[..2] == Digits(v);
  }

  lemma {:induction false} DecodeTriple(v: seq<Sextet>)
    requires |v| == 3 && v[2] % 4 == 0
    ensures Decode([Digit(v[0]), Digit(v[1]), Digit(v[2]), '=']) == Some([X(v[0], v[1]), Y(v[1], v[2])])
  {
    var s := [Digit(v[0]), Digit(v[1]), Digit(v[2]), '='];
    ValuesOfDigits(v);
    DigitRoundTrip(v[2]);
    assert s[..3] == Digits(v);
  }

  lemma {:induction false} DecodeQuad(v: seq<Sextet>, rest: string)
    requires |v| == 4 && Decode(rest).Some?
    ensures Decode([Digit(v[0]), Digit(v[1]), Digit(v[2]), Digit(v[3])] + rest)
            == Some([X(v[0], v[1]), Y(v[1], v[2]), Z(v[2], v[3])] + Decode(rest).value)
  {
    var s := [Digit(v[0]), Digit(v[1]), Digit(v[2]), Digit(v[3])] + rest;
    ValuesOfDigits(v);
    DigitRoundTrip(v[3]);
    assert s[..4] == Digits(v) && s[4..] == rest;
  }

  /** Encoding undoes decoding: no two texts decode alike. */
  lemma {:induction false} DecodeRoundTrip(s: string)
    requires Decode(s).Some?
    ensures Encode(Decode(s).value) == s
    decreases |s|
  {
    if |s| == 4 && s[3] == '=' {
      DecodeLast(s);
    } else if s != "" {
      DecodeRoundTrip(s[4..]);
      DigitsOfValues(s[..4]);
      DecodeMore(s, Values(s[..4]).value, Decode(s[4..]).value);
    }
  }

  lemma {:induction false} DecodeLast(s: string)
    requires |s| == 4 && s[3] == '=' && Decode(s).Some?
    ensures Encode(Decode(s).value) == s
  {
    if s[2] == '=' {
      DigitsOfValues(s[..2]);
      EncodePair(Values(s[..2]).value);
      assert s == s[..2] + ['=', '='];
    } else {
      DigitsOfValues(s[..3]);
      EncodeTriple(Values(s[..3]).value);
      assert s == s[..3] + ['='];
    }
  }

  lemma {:induction false} EncodePair(v: seq<Sextet>)
    requires |v| == 2 && v[1] % 16 == 0
    ensures Encode([X(v[0], v[1])]) == Digits(v) + ['=', '=']
  {
    UngroupedTwo(v[0], v[1]);
  }

  lemma {:induction false} EncodeTriple(v: seq<Sextet>)
    requires |v| == 3 && v[2] % 4 == 0
    ensures Encode([X(v[0], v[1]), Y(v[1], v[2])]) == Digits(v) + ['=']
  {
    UngroupedThree(v[0], v[1], v[2]);
  }

  lemma {:induction false} DecodeMore(s: string, v: seq<Sextet>, rest: seq<byte>)
    requires |s| >= 4 && |v| == 4 && Digits(v) == s[..4] && Encode(rest) == s[4..]
    ensures Encode([X(v[0], v[1]), Y(v[1], v[2]), Z(v[2], v[3])] + rest) == s
  {
    DecodeFour(v, rest);
    assert s == s[..4] + s[4..];
  }

  lemma {:induction false} DecodeFour(v: seq<Sextet>, rest: seq<byte>)
    requires |v| == 4
    ensures Encode([X(v[0], v[1]), Y(v[1], v[2]), Z(v[2], v[3])] + rest) == Digits(v) + Encode(rest)
  {
    Ungrouped(v[0], v[1], v[2], v[3]);
    assert ([X(v[0], v[1]), Y(v[1], v[2]), Z(v[2], v[3])] + rest)[3..] == rest;
  }

  predicate IsPlain(c: char) { Undigit(c).Some? || c == '=' }

  /** Only digits and padding. */
  lemma {:induction false} EncodingIsPlain(b: seq<byte>)
    ensures forall i :: 0 <= i < |Encode(b)| ==> IsPlain(Encode(b)[i])
  {
    if |b| >= 3 {
      EncodingIsPlain(b[3..]);
      PlainGroup(b);
    } else if b != [] {
      PlainEnd(b);
    }
  }

  lemma {:induction false} PlainGroup(b: seq<byte>)
    requires |b| >= 3 && forall i :: 0 <= i < |Encode(b[3..])| ==> IsPlain(Encode(b[3..])[i])
    ensures forall i :: 0 <= i < |Encode(b)| ==> IsPlain(Encode(b)[i])
  {
    var v := [P(b[0]), Q(b[0], b[1]), R(b[1], b[2]), T(b[2])];
    PlainDigits(v, Encode(b[3..]));
    assert Encode(b) == Digits(v) + Encode(b[3..]);
  }

  lemma {:induction false} PlainEnd(b: seq<byte>)
    requires 0 < |b| < 3
    ensures forall i :: 0 <= i < |Encode(b)| ==> IsPlain(Encode(b)[i])
  {
    var v := if |b| == 1 then [P(b[0]), LastQ(b[0])] else [P(b[0]), Q(b[0], b[1]), LastR(b[1])];
    var padding := if |b| == 1 then ['=', '='] else ['='];
    PlainDigits(v, padding);
    assert Encode(b) == Digits(v) + padding;
  }

  lemma {:induction false} PlainDigits(v: seq<Sextet>, rest: string)
    requires forall i :: 0 <= i < |rest| ==> IsPlain(rest[i])
    ensures forall i :: 0 <= i < |v| + |rest| ==> IsPlain((Digits(v) + rest)[i])
  {
    ValuesOfDigits(v);
    forall i | 0 <= i < |v| ensures IsPlain(Digits(v)[i]) {
      assert Digits(v)[i] in Digits(v);
    }
  }
}
