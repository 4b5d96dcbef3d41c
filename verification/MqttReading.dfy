/**
 Reading MQTT packets (`_recv_exact` and `_read_packet` in mqtt_lite.py) from what a socket has
 coming: bytes with pauses and a cut among them.
*/
module MqttReading {
  import opened Bytes
  import opened Net
  import opened MqttWire

  datatype Received = Exactly(data: seq<byte>) | Expired(lost: nat) | Lost

  datatype Packeted = Whole(header: byte, body: seq<byte>) | TimedOut(lost: nat) | Failed

  // ------------------------------------------------------------------ some bytes

  function Prepend(front: seq<byte>, r: Received): Received {
    match r
    case Exactly(data) => Exactly(front + data)
    case Expired(lost) => Expired(|front| + lost)
    case Lost => Lost
  }

  /** `_recv_exact`: a pause or a cut ends it, and what it had taken is forgotten. */
  function Take(items: seq<Item>, count: nat): (Received, seq<Item>) {
    if count == 0 then (Exactly([]), items)
    else if items == [] then (Expired(0), [])
    else
      match items[0]
      case Byte(b) => var (r, left) := Take(items[1..], count - 1); (Prepend([b], r), left)
      case Pause => (Expired(0), items[1..])
      case Cut => (Lost, items[1..])
  }

  /** The bytes at the front are taken first, in any number of chunks. */
  lemma {:induction false} TakeThrough(front: seq<byte>, rest: seq<Item>, count: nat)
    requires |front| <= count
    ensures var (r, left) := Take(rest, count - |front|);
            Take(AsItems(front) + rest, count) == (Prepend(front, r), left)
  {
    var items := AsItems(front) + rest;
    if front == [] {
      assert items == rest;
      var r := Take(rest, count).0;
      assert r.Exactly? ==> [] + r.data == r.data;
    } else {
      assert items[1..] == AsItems(front[1..]) + rest;
      TakeThrough(front[1..], rest, count - 1);
      var r := Take(rest, count - |front|).0;
      assert r.Exactly? ==> [front[0]] + (front[1..] + r.data) == front + r.data;
    }
  }

  lemma {:induction false} TakeAll(bytes: seq<byte>, rest: seq<Item>)
    ensures Take(AsItems(bytes) + rest, |bytes|) == (Exactly(bytes), rest)
  {
    TakeThrough(bytes, rest, |bytes|);
    assert bytes + [] == bytes;
  }

  /** Stopped short: everything up to and with the pause or the cut is gone. */
  lemma {:induction false} TakeShort(bytes: seq<byte>, stop: Item, rest: seq<Item>, count: nat)
    requires |bytes| < count && !stop.Byte?
    ensures Take(AsItems(bytes) + ([stop] + rest), count) == (if stop.Pause? then Expired(|bytes|) else Lost, rest)
  {
    assert ([stop] + rest)[1..] == rest;
    TakeThrough(bytes, [stop] + rest, count);
  }

  /** Bytes are taken in order: handed out or, at a timeout, lost. */
  lemma {:induction false} TakeKeepsOrder(items: seq<Item>, count: nat)
    ensures var (r, left) := Take(items, count);
            |left| <= |items| && (count > 0 && items != [] ==> |left| < |items|)
            && TakenInOrder(r, BytesIn(left), BytesIn(items), count)
  {
    hide BytesIn;
    if count == 0 {
      assert [] + BytesIn(items) == BytesIn(items);
    } else if items == [] {
      NoBytesIn();
    } else if items[0].Byte? {
      TakeKeepsOrder(items[1..], count - 1);
      var (r, left) := Take(items[1..], count - 1);
      BytesInFirst(items);
      OneMoreTaken(items[0].value, r, BytesIn(left), BytesIn(items[1..]), count);
    } else {
      BytesInFirst(items);
    }
  }

  /** The bytes taken are the first of them, in order, or lost from the front. */
  predicate TakenInOrder(r: Received, left: seq<byte>, bytes: seq<byte>, count: nat) {
    (r.Exactly? ==> |r.data| == count && r.data + left == bytes)
    && (r.Expired? ==> r.lost < count && r.lost <= |bytes| && left == bytes[r.lost..])
  }

  lemma {:induction false} OneMoreTaken(b: byte, r: Received, left: seq<byte>, bytes: seq<byte>, count: nat)
    requires count > 0 && TakenInOrder(r, left, bytes, count - 1)
    ensures TakenInOrder(Prepend([b], r), left, [b] + bytes, count)
  {
    match r
    case Exactly(data) => Regroup([b], data, left);
    case Expired(lost) =>
      assert ([b] + bytes)[1..] == bytes;
      DropTwice([b] + bytes, 1, lost);
    case Lost =>
  }

  lemma {:induction false} NoBytesIn()
    ensures BytesIn([]) == []
  {
  }

  lemma {:induction false} BytesInFirst(items: seq<Item>)
    requires items != []
    ensures BytesIn(items) == if items[0].Byte? then [items[0].value] + BytesIn(items[1..]) else BytesIn(items[1..])
  {
    if !items[0].Byte? { assert [] + BytesIn(items[1..]) == BytesIn(items[1..]); }
  }

  // ------------------------------------------------------------------ the remaining length

  datatype LengthRead = Measured(n: nat, taken: nat, left: seq<Item>) | LengthExpired(lost: nat, left: seq<Item>) | LengthLost(left: seq<Item>)

  /** The loop over at most four length bytes, i of them read already. */
  function ReadLength(items: seq<Item>, i: nat): LengthRead
    requires i <= 4
    decreases 4 - i
  {
    if i == 4 then LengthLost(items)
    else
      match Take(items, 1)
      case (Expired(_), left) => LengthExpired(i, left)
      case (Lost, left) => LengthLost(left)
      case (Exactly(data), left) =>
        TakeKeepsOrder(items, 1);
        if data[0] < 128 then Measured(data[0], i + 1, left)
        else
          match ReadLength(left, i + 1)
          case Measured(n, taken, end) => Measured(data[0] - 128 + 128 * n, taken, end)
          case other => other
  }

  lemma {:induction false} TakeOne(b: byte, rest: seq<Item>)
    ensures Take([Byte(b)] + rest, 1) == (Exactly([b]), rest)
  {
    TakeAll([b], rest);
    assert AsItems([b]) == [Byte(b)];
  }

  lemma {:induction false} LengthIsRead(n: nat, rest: seq<Item>, i: nat)
    requires i < 4 && n < Pow128(4 - i)
    ensures ReadLength(AsItems(EncodeLength(n)) + rest, i) == Measured(n, i + |EncodeLength(n)|, rest)
    decreases 4 - i
  {
    var code := EncodeLength(n);
    var after := AsItems(code[1..]) + rest;
    assert AsItems(code) + rest == [Byte(code[0])] + after;
    TakeOne(code[0], after);
    if n < 128 {
      assert after == rest;
    } else {
      assert code[1..] == EncodeLength(n / 128);
      LengthIsRead(n / 128, rest, i + 1);
    }
  }

  /** A pause after j bytes of the length. */
  lemma {:induction false} LengthStops(n: nat, j: nat, stop: Item, rest: seq<Item>, i: nat)
    requires i < 4 && n < Pow128(4 - i) && j < |EncodeLength(n)| && !stop.Byte?
    ensures ReadLength(AsItems(EncodeLength(n)[..j]) + ([stop] + rest), i)
            == if stop.Pause? then LengthExpired(i + j, rest) else LengthLost(rest)
    decreases 4 - i
  {
    var code := EncodeLength(n);
    if j == 0 {
      assert code[..0] == [];
      TakeShort([], stop, rest, 1);
    } else {
      var after := AsItems(code[1..][..j - 1]) + ([stop] + rest);
      assert AsItems(code[..j]) + ([stop] + rest) == [Byte(code[0])] + after;
      TakeOne(code[0], after);
      assert code[1..] == EncodeLength(n / 128);
      LengthStops(n / 128, j - 1, stop, rest, i + 1);
    }
  }

  /** What is read is what the bytes encode. */
  lemma {:induction false} LengthAgrees(items: seq<Item>, i: nat)
    requires i <= 4
    ensures var r := ReadLength(items, i); |r.left| <= |items| && LengthRight(r, BytesIn(items), i)
    decreases 4 - i
  {
    hide BytesIn, Take;
    if i < 4 {
      TakeKeepsOrder(items, 1);
      var (r, left) := Take(items, 1);
      if r.Exactly? {
        LengthAgrees(left, i + 1);
        assert BytesIn(items)[0] == r.data[0] && BytesIn(items)[1..] == BytesIn(left);
        if r.data[0] >= 128 { LengthOneMore(BytesIn(items), ReadLength(left, i + 1), i); }
      }
    }
  }

  /** What is read of a length, from its byte number i on, is what the bytes encode. */
  predicate LengthRight(r: LengthRead, bytes: seq<byte>, i: nat)
    requires i <= 4
  {
    match r
    case Measured(n, taken, left) =>
      DecodeLength(bytes, i) == Length(n, BytesIn(left)) && taken >= i && taken - i + |BytesIn(left)| == |bytes|
    case LengthExpired(lost, left) => i <= lost && lost - i <= |bytes| && BytesIn(left) == bytes[lost - i..]
    case LengthLost(_) => true
  }

  lemma {:induction false} LengthOneMore(bytes: seq<byte>, more: LengthRead, i: nat)
    requires i < 4 && bytes != [] && bytes[0] >= 128 && LengthRight(more, bytes[1..], i + 1)
    ensures LengthRight(match more case Measured(n, taken, end) => Measured(bytes[0] - 128 + 128 * n, taken, end) case other => other,
                        bytes, i)
  {
    hide BytesIn;
    if more.LengthExpired? { DropTwice(bytes, 1, more.lost - i - 1); }
  }

  // ------------------------------------------------------------------ a packet

  /** `_read_packet`. */
  function ReadOn(items: seq<Item>, max: nat): (Packeted, seq<Item>) {
    match Take(items, 1)
    case (Expired(_), left) => (TimedOut(0), left)
    case (Lost, left) => (Failed, left)
    case (Exactly(header), left) =>
      match ReadLength(left, 0)
      case LengthExpired(lost, end) => (TimedOut(1 + lost), end)
      case LengthLost(end) => (Failed, end)
      case Measured(n, taken, end) => if n > max then (Failed, end) else ReadBody(header[0], n, taken, end)
  }

  function ReadBody(header: byte, n: nat, taken: nat, items: seq<Item>): (Packeted, seq<Item>) {
    var (r, left) := Take(items, n);
    (BodyOutcome(header, taken, r), left)
  }

  function BodyOutcome(header: byte, taken: nat, r: Received): Packeted {
    match r
    case Exactly(body) => Whole(header, body)
    case Expired(lost) => TimedOut(1 + taken + lost)
    case Lost => Failed
  }

  lemma {:induction false} MaxLength()
    ensures Pow128(4) == MAX_REMAINING_LENGTH + 1
  {
    assert Pow128(2) == 16384;
    assert Pow128(4) == 128 * (128 * Pow128(2));
  }

  lemma {:induction false} PacketItems(header: byte, length: seq<byte>, body: seq<byte>, rest: seq<Item>)
    ensures AsItems([header] + length + body) + rest == [Byte(header)] + (AsItems(length) + (AsItems(body) + rest))
  {
  }

  /** A whole packet without a pause in it is read, and the rest left alone. */
  lemma {:induction false} WholeIsRead(header: byte, body: seq<byte>, rest: seq<Item>, max: nat)
    requires |body| <= max && |body| <= MAX_REMAINING_LENGTH
    ensures ReadOn(AsItems(Packet(header, body)) + rest, max) == (Whole(header, body), rest)
  {
    var length := EncodeLength(|body|);
    var after := AsItems(body) + rest;
    PacketItems(header, length, body, rest);
    TakeOne(header, AsItems(length) + after);
    MaxLength();
    LengthIsRead(|body|, after, 0);
    TakeAll(body, rest);
  }

  /** A packet longer than the limit is refused as soon as its length is there: none of its body is read. */
  lemma {:induction false} OverlongIsRefused(header: byte, length: nat, rest: seq<Item>, max: nat)
    requires max < length <= 268_435_455
    ensures ReadOn([Byte(header)] + (AsItems(EncodeLength(length)) + rest), max) == (Failed, rest)
  {
    TakeOne(header, AsItems(EncodeLength(length)) + rest);
    MaxLength();
    LengthIsRead(length, rest, 0);
  }

  /** So is a length of more than four bytes, after its fourth. */
  lemma {:induction false} EndlessLengthIsRefused(header: byte, a: byte, b: byte, c: byte, d: byte, rest: seq<Item>, max: nat)
    requires a >= 128 && b >= 128 && c >= 128 && d >= 128
    ensures ReadOn([Byte(header)] + ([Byte(a)] + ([Byte(b)] + ([Byte(c)] + ([Byte(d)] + rest)))), max) == (Failed, rest)
  {
    hide Take;
    TakeOne(header, [Byte(a)] + ([Byte(b)] + ([Byte(c)] + ([Byte(d)] + rest))));
    TakeOne(a, [Byte(b)] + ([Byte(c)] + ([Byte(d)] + rest)));
    TakeOne(b, [Byte(c)] + ([Byte(d)] + rest));
    TakeOne(c, [Byte(d)] + rest);
    TakeOne(d, rest);
    assert ReadLength(rest, 4) == LengthLost(rest);
    assert ReadLength([Byte(d)] + rest, 3) == LengthLost(rest);
    assert ReadLength([Byte(c)] + ([Byte(d)] + rest), 2) == LengthLost(rest);
    assert ReadLength([Byte(b)] + ([Byte(c)] + ([Byte(d)] + rest)), 1) == LengthLost(rest);
  }

  /** A pause after the first t bytes of a packet loses exactly those; a cut ends the reading. */
  lemma {:induction false} StopInside(header: byte, body: seq<byte>, t: nat, stop: Item, rest: seq<Item>, max: nat)
    requires |body| <= max && |body| <= MAX_REMAINING_LENGTH && t < |Packet(header, body)| && !stop.Byte?
    ensures ReadOn(AsItems(Packet(header, body)[..t]) + ([stop] + rest), max) == (if stop.Pause? then TimedOut(t) else Failed, rest)
  {
    if t == 0 {
      assert Packet(header, body)[..0] == [];
      TakeShort([], stop, rest, 1);
    } else if t <= |EncodeLength(|body|)| {
      StopInLength(header, body, t, stop, rest, max);
    } else {
      StopInBody(header, body, t, stop, rest, max);
    }
  }

  lemma {:induction false} StopInLength(header: byte, body: seq<byte>, t: nat, stop: Item, rest: seq<Item>, max: nat)
    requires |body| <= MAX_REMAINING_LENGTH && 0 < t <= |EncodeLength(|body|)| && !stop.Byte?
    ensures ReadOn(AsItems(Packet(header, body)[..t]) + ([stop] + rest), max) == (if stop.Pause? then TimedOut(t) else Failed, rest)
  {
    var length := EncodeLength(|body|);
    assert Packet(header, body)[..t] == [header] + length[..t - 1] + [];
    PacketItems(header, length[..t - 1], [], [stop] + rest);
    assert AsItems([]) + ([stop] + rest) == [stop] + rest;
    TakeOne(header, AsItems(length[..t - 1]) + ([stop] + rest));
    MaxLength();
    LengthStops(|body|, t - 1, stop, rest, 0);
  }

  lemma {:induction false} StopInBody(header: byte, body: seq<byte>, t: nat, stop: Item, rest: seq<Item>, max: nat)
    requires |body| <= max && |body| <= MAX_REMAINING_LENGTH && !stop.Byte?
    requires |EncodeLength(|body|)| < t < |Packet(header, body)|
    ensures ReadOn(AsItems(Packet(header, body)[..t]) + ([stop] + rest), max) == (if stop.Pause? then TimedOut(t) else Failed, rest)
  {
    hide Take, ReadLength, AsItems, EncodeLength;
    var length := EncodeLength(|body|);
    var part := body[..t - 1 - |length|];
    var after := AsItems(part) + ([stop] + rest);
    assert Packet(header, body)[..t] == [header] + length + part;
    PacketItems(header, length, part, [stop] + rest);
    TakeOne(header, AsItems(length) + after);
    MaxLength();
    LengthIsRead(|body|, after, 0);
    TakeShort(part, stop, rest, |body|);
  }

  /** A packet read is the one at the front of the bytes; a timeout loses only bytes of one packet,
      and those from its first on. */
  lemma {:induction false} ReadAgrees(items: seq<Item>, max: nat)
    ensures var (r, left) := ReadOn(items, max);
            |left| <= |items| && (items != [] ==> |left| < |items|)
            && (r.Whole? ==> DecodePacket(BytesIn(items), max) == Got(r.header, r.body, BytesIn(left)))
            && (r.TimedOut? ==> r.lost <= |BytesIn(items)| && BytesIn(left) == BytesIn(items)[r.lost..])
  {
    TakeKeepsOrder(items, 1);
    var (first, left) := Take(items, 1);
    if first.Exactly? {
      assert BytesIn(items)[0] == first.data[0] && BytesIn(items)[1..] == BytesIn(left);
      LengthAgrees(left, 0);
      var l := ReadLength(left, 0);
      if l.LengthExpired? { DropTwice(BytesIn(items), 1, l.lost); }
      if l.Measured? && l.n <= max { BodyAgrees(BytesIn(items), l.n, l.taken, l.left, max); }
    }
  }

  lemma {:induction false} BodyAgrees(stream: seq<byte>, n: nat, taken: nat, items: seq<Item>, max: nat)
    requires stream != [] && n <= max && DecodeLength(stream[1..], 0) == Length(n, BytesIn(items))
    requires 1 + taken + |BytesIn(items)| == |stream|
    ensures var (r, left) := ReadBody(stream[0], n, taken, items);
            |left| <= |items|
            && (r.Whole? ==> DecodePacket(stream, max) == Got(r.header, r.body, BytesIn(left)))
            && (r.TimedOut? ==> r.lost <= |stream| && BytesIn(left) == stream[r.lost..])
  {
    TakeKeepsOrder(items, n);
    var (r, left) := Take(items, n);
    OutcomeAgrees(stream, n, taken, BytesIn(items), BytesIn(left), r, max);
  }

  lemma {:induction false} OutcomeAgrees(stream: seq<byte>, n: nat, taken: nat, before: seq<byte>, after: seq<byte>, r: Received, max: nat)
    requires stream != [] && n <= max && DecodeLength(stream[1..], 0) == Length(n, before) && 1 + taken + |before| == |stream|
    requires r.Exactly? ==> |r.data| == n && r.data + after == before
    requires r.Expired? ==> r.lost <= |before| && after == before[r.lost..]
    ensures var p := BodyOutcome(stream[0], taken, r);
            (p.Whole? ==> DecodePacket(stream, max) == Got(p.header, p.body, after))
            && (p.TimedOut? ==> p.lost <= |stream| && after == stream[p.lost..])
  {
    match r
    case Exactly(data) => WholePacket(stream, stream[0], before, data, after, max);
    case Expired(lost) => LostInBody(stream, before, taken, lost);
    case Lost =>
  }

  /** Bytes lost in the body are counted from the packet's first byte. */
  lemma {:induction false} LostInBody(stream: seq<byte>, before: seq<byte>, taken: nat, lost: nat)
    requires stream != [] && DecodeLength(stream[1..], 0).Length? && DecodeLength(stream[1..], 0).rest == before
    requires taken + |before| == |stream[1..]| && lost <= |before|
    ensures 1 + taken + lost <= |stream| && before[lost..] == stream[1 + taken + lost..]
  {
    var k := LengthRestAt(stream[1..], 0);
    DropTwice(stream, 1, taken);
    DropTwice(stream, 1 + taken, lost);
  }

  lemma {:induction false} WholePacket(stream: seq<byte>, header: byte, before: seq<byte>, data: seq<byte>, rest: seq<byte>, max: nat)
    requires stream != [] && stream[0] == header && |data| <= max
    requires DecodeLength(stream[1..], 0) == Length(|data|, before) && before == data + rest
    ensures DecodePacket(stream, max) == Got(header, data, rest)
  {
    DropFront(before, data, rest);
  }

  lemma {:induction false} LengthRestAt(s: seq<byte>, i: nat) returns (k: nat)
    requires i <= 4 && DecodeLength(s, i).Length?
    ensures k <= |s| && DecodeLength(s, i).rest == s[k..]
    decreases 4 - i
  {
    k := 1;
    if s[0] >= 128 {
      var j := LengthRestAt(s[1..], i + 1);
      DropTwice(s, 1, j);
      k := 1 + j;
    }
  }
}
