/** Bytes, and the big-endian integers that MQTT and WebSocket put on the wire. */
module Bytes {

  type byte = b: int | 0 <= b < 256

  function Pow256(k: nat): (p: nat)
    ensures p > 0
  {
    if k == 0 then 1 else 256 * Pow256(k - 1)
  }

  /** struct.pack of an unsigned k-byte integer in network order. */
  function BigEndian(n: nat, k: nat): (s: seq<byte>)
    requires n < Pow256(k)
    ensures |s| == k
  {
    if k == 0 then [] else BigEndian(n / 256, k - 1) + [n % 256]
  }

  /** struct.unpack of an unsigned integer in network order. */
  function FromBigEndian(s: seq<byte>): (n: nat)
    ensures n < Pow256(|s|)
  {
    if s == [] then 0 else 256 * FromBigEndian(s[..|s| - 1]) + s[|s| - 1]
  }

  lemma {:induction false} BigEndianRoundTrip(n: nat, k: nat)
    requires n < Pow256(k)
    ensures FromBigEndian(BigEndian(n, k)) == n
  {
    if k > 0 {
      BigEndianRoundTrip(n / 256, k - 1);
      assert BigEndian(n, k)[..k - 1] == BigEndian(n / 256, k - 1);
    }
  }

  /** Two bytes, most significant first. */
  lemma {:induction false} TwoBytes(n: nat)
    requires n < 65536
    ensures Pow256(2) == 65536 && BigEndian(n, 2) == [n / 256, n % 256]
  {
    assert Pow256(1) == 256 && BigEndian(n / 256, 1) == [n / 256] by { assert BigEndian(0, 0) == []; }
  }

  function Two(high: nat, low: nat): nat { 256 * high + low }

  lemma {:induction false} FromTwoBytes(s: seq<byte>)
    requires |s| == 2
    ensures FromBigEndian(s) == Two(s[0], s[1])
  {
    assert s[..1][..0] == [] && s[..1] == [s[0]];
    assert FromBigEndian(s[..1]) == s[0];
  }

  // ------------------------------------------------------------------ sequence algebra

  lemma {:induction false} Regroup<T>(a: seq<T>, b: seq<T>, c: seq<T>)
    ensures a + b + c == a + (b + c)
  {
  }

  /** Peeling the first element off both sides. */
  lemma {:induction false} PrependHead<T>(p: seq<T>, whole: seq<T>, rest: seq<T>, tail: seq<T>)
    requires p != [] && whole == [p[0]] + rest && rest == p[1..] + tail
    ensures whole == p + tail
  {
  }

  lemma {:induction false} DropFront<T>(whole: seq<T>, front: seq<T>, back: seq<T>)
    requires whole == front + back
    ensures whole[..|front|] == front && whole[|front|..] == back
    ensures front != [] ==> whole != [] && whole[0] == front[0]
  {
  }

  lemma {:induction false} DropTwice<T>(s: seq<T>, i: nat, j: nat)
    requires i + j <= |s|
    ensures s[i..][j..] == s[i + j..]
  {
  }

  function Flatten<T>(parts: seq<seq<T>>): seq<T> {
    if parts == [] then [] else parts[0] + Flatten(parts[1..])
  }
}
