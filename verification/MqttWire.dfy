/**
 MQTT packets on the wire (mqtt_lite.py): fixed header, remaining length, PUBLISH.
 MQTT 3.1.1, sections 2.2.3 and 3.3.
*/
module MqttWire {
  import opened Bytes
  import opened Wrappers

  const PUBLISH: nat := 3
  const PUBACK: nat := 4
  const SUBACK: nat := 9
  const SUBSCRIBE_HEADER: byte := 0x82
  const PUBACK_HEADER: byte := 0x40
  const PINGREQ_HEADER: byte := 0xC0
  const MAX_REMAINING_LENGTH: nat := 268_435_455

  function Pow128(k: nat): (p: nat)
    ensures p > 0
  {
    if k == 0 then 1 else 128 * Pow128(k - 1)
  }

  // ------------------------------------------------------------------ writing

  /** Base 128, least significant digit first, top bit set on all but the last. */
  function EncodeLength(n: nat): (s: seq<byte>)
    ensures s != []
  {
    if n < 128 then [n] else [n % 128 + 128] + EncodeLength(n / 128)
  }

  /** `_encode_length`. */
  method EncodeLengthLoop(length: int) returns (code: Option<seq<byte>>)
    ensures code == if 0 <= length <= MAX_REMAINING_LENGTH then Some(EncodeLength(length)) else None
  {
    if !(0 <= length <= MAX_REMAINING_LENGTH) {
      return None;
    }
    var out: seq<byte>, left: nat := [], length;
    while true
      invariant out + EncodeLength(left) == EncodeLength(length)
      decreases left
    {
      var digit, rest := left % 128, left / 128;
      out := out + [if rest != 0 then digit + 128 else digit];
      if rest == 0 {
        return Some(out);
      }
      left := rest;
    }
  }

  /** What section 2.2.3 of MQTT 3.1.1 reads from a length field: seven bits a byte, least first. */
  function ValueOf(s: seq<byte>): nat { if s == [] then 0 else s[0] % 128 + 128 * ValueOf(s[1..]) }

  /** Only the last byte has its top bit clear, and no shorter field has this value. */
  lemma {:induction false} EncodedLengthIs(n: nat)
    ensures var s := EncodeLength(n);
            && ValueOf(s) == n && (forall i :: 0 <= i < |s| ==> (s[i] < 128 <==> i == |s| - 1))
            && (|s| == 1 || s[|s| - 1] != 0)
  {
    if n >= 128 {
      EncodedLengthIs(n / 128);
      assert EncodeLength(n)[1..] == EncodeLength(n / 128);
    } else {
      assert ValueOf([n]) == n % 128 + 128 * ValueOf([]) by { assert [n][1..] == []; }
    }
  }

  function Packet(header: byte, body: seq<byte>): seq<byte> {
    [header] + EncodeLength(|body|) + body
  }

  /** A length-prefixed field; longer ones are refused by `_string`. */
  function Field(raw: seq<byte>): seq<byte>
    requires |raw| < Pow256(2)
  {
    BigEndian(|raw|, 2) + raw
  }

  // ------------------------------------------------------------------ reading

  datatype Length = Short | Malformed | Length(n: nat, rest: seq<byte>)

  /** The remaining length from its byte number i on; a fifth byte is malformed. */
  function DecodeLength(s: seq<byte>, i: nat): Length
    requires i <= 4
    decreases 4 - i
  {
    if i == 4 then Malformed
    else if s == [] then Short
    else if s[0] < 128 then Length(s[0], s[1..])
    else
      match DecodeLength(s[1..], i + 1)
      case Length(n, rest) => Length(s[0] - 128 + 128 * n, rest)
      case other => other
  }

  datatype Decoded = More | Bad | Got(header: byte, body: seq<byte>, rest: seq<byte>)

  /** `_read_packet` on a byte stream; `max` is the client's packet limit. */
  function DecodePacket(s: seq<byte>, max: nat): (d: Decoded)
    ensures d.Got? ==> |d.rest| < |s|
  {
    if s == [] then More
    else
      DecodeLengthShrinks(s[1..], 0);
      match DecodeLength(s[1..], 0)
      case Short => More
      case Malformed => Bad
      case Length(n, rest) =>
        if n > max then Bad
        else if |rest| < n then More
        else Got(s[0], rest[..n], rest[n..])
  }

  lemma {:induction false} DecodeLengthShrinks(s: seq<byte>, i: nat)
    requires i <= 4
    ensures DecodeLength(s, i).Length? ==> |DecodeLength(s, i).rest| < |s|
    decreases 4 - i
  {
    if i < 4 && s != [] && s[0] >= 128 { DecodeLengthShrinks(s[1..], i + 1); }
  }

  lemma {:induction false} LengthRoundTrip(n: nat, rest: seq<byte>, i: nat)
    requires i < 4 && n < Pow128(4 - i)
    ensures DecodeLength(EncodeLength(n) + rest, i) == Length(n, rest)
    decreases 4 - i
  {
    var s := EncodeLength(n) + rest;
    if n < 128 {
      assert s[1..] == rest;
    } else {
      assert s[1..] == EncodeLength(n / 128) + rest;
      LengthRoundTrip(n / 128, rest, i + 1);
    }
  }

  /** One packet is recovered from the front of any stream, and the rest is left alone. */
  lemma {:induction false} PacketRoundTrip(header: byte, body: seq<byte>, rest: seq<byte>, max: nat)
    requires |body| <= max && |body| <= MAX_REMAINING_LENGTH
    ensures DecodePacket(Packet(header, body) + rest, max) == Got(header, body, rest)
  {
    var s := Packet(header, body) + rest;
    assert s[1..] == EncodeLength(|body|) + (body + rest);
    assert Pow128(4) == 268_435_456 by { assert Pow128(2) == 16384; assert Pow128(4) == 128 * (128 * Pow128(2)); }
    LengthRoundTrip(|body|, body + rest, 0);
    assert (body + rest)[..|body|] == body && (body + rest)[|body|..] == rest;
  }

  datatype Raw = Raw(header: byte, body: seq<byte>)

  predicate Sendable(p: Raw, max: nat) { |p.body| <= max && |p.body| <= MAX_REMAINING_LENGTH }

  function EncodeAll(ps: seq<Raw>): seq<byte> {
    if ps == [] then [] else Packet(ps[0].header, ps[0].body) + EncodeAll(ps[1..])
  }

  /** Every complete packet at the front of a stream. */
  function DecodeAll(s: seq<byte>, max: nat): seq<Raw>
    decreases |s|
  {
    match DecodePacket(s, max)
    case Got(header, body, rest) => [Raw(header, body)] + DecodeAll(rest, max)
    case _ => []
  }

  lemma {:induction false} FrontPacket(packets: seq<Raw>, tail: seq<byte>, max: nat)
    requires packets != [] && Sendable(packets[0], max)
    ensures var after := EncodeAll(packets[1..]) + tail;
            EncodeAll(packets) + tail == Packet(packets[0].header, packets[0].body) + after
            && DecodePacket(EncodeAll(packets) + tail, max) == Got(packets[0].header, packets[0].body, after)
  {
    var after := EncodeAll(packets[1..]) + tail;
    assert EncodeAll(packets) + tail == Packet(packets[0].header, packets[0].body) + after;
    PacketRoundTrip(packets[0].header, packets[0].body, after, max);
  }

  lemma {:induction false} FrontDecoded(packets: seq<Raw>, tail: seq<byte>, max: nat)
    requires packets != [] && Sendable(packets[0], max)
    ensures DecodeAll(EncodeAll(packets) + tail, max) == [packets[0]] + DecodeAll(EncodeAll(packets[1..]) + tail, max)
  {
    FrontPacket(packets, tail, max);
  }

  /** A concatenation of packets decodes to exactly those packets, then to whatever follows. */
  lemma {:induction false} StreamRoundTrip(packets: seq<Raw>, tail: seq<byte>, max: nat)
    requires forall p :: p in packets ==> Sendable(p, max)
    ensures DecodeAll(EncodeAll(packets) + tail, max) == packets + DecodeAll(tail, max)
  {
    if packets == [] {
      assert EncodeAll(packets) + tail == tail;
    } else {
      StreamRoundTrip(packets[1..], tail, max);
      FrontDecoded(packets, tail, max);
      PrependHead(packets, DecodeAll(EncodeAll(packets) + tail, max),
                  DecodeAll(EncodeAll(packets[1..]) + tail, max), DecodeAll(tail, max));
    }
  }

  // ------------------------------------------------------------------ PUBLISH

  /** Topics are kept as their UTF-8 bytes; `utf8` says which byte strings decode. */
  datatype Message = Message(topic: seq<byte>, payload: seq<byte>, qos: nat, retain: bool)

  datatype Parsed = NotPublish | Parsed(message: Message, ack: seq<byte>)

  /** `_parse_publish`: `ack` is the PUBACK to send, empty unless QoS 1. */
  function ParsePublish(header: byte, body: seq<byte>, utf8: seq<byte> -> bool): Parsed {
    var qos := header / 2 % 4;
    if qos == 3 || |body| < 2 then NotPublish
    else
      var offset := 2 + FromBigEndian(body[..2]);
      if |body| < offset then NotPublish
      else if !utf8(body[2..offset]) then NotPublish
      else if qos == 0 then Parsed(Message(body[2..offset], body[offset..], 0, header % 2 == 1), [])
      else if |body| < offset + 2 then NotPublish
      else Parsed(Message(body[2..offset], body[offset + 2..], qos, header % 2 == 1),
                  if qos == 1 then Packet(PUBACK_HEADER, body[offset..offset + 2]) else [])
  }

  /** What `publish` writes. */
  function PublishHeader(qos: nat, retain: bool): byte
    requires qos < 2
  {
    0x30 + 2 * qos + if retain then 1 else 0
  }

  function PublishBody(topic: seq<byte>, payload: seq<byte>, qos: nat, packetId: nat): seq<byte>
    requires |topic| < Pow256(2) && packetId < Pow256(2)
  {
    Field(topic) + (if qos == 0 then [] else BigEndian(packetId, 2)) + payload
  }

  /** A body that starts with a well-formed topic field parses by its slices. */
  lemma {:induction false} ParsedFields(header: byte, prefix: seq<byte>, topic: seq<byte>, rest: seq<byte>, utf8: seq<byte> -> bool)
    requires |prefix| == 2 && FromBigEndian(prefix) == |topic| && utf8(topic)
    requires header / 2 % 4 == 0 || (header / 2 % 4 == 1 && |rest| >= 2)
    ensures var p := ParsePublish(header, prefix + topic + rest, utf8);
            p == if header / 2 % 4 == 0 then Parsed(Message(topic, rest, 0, header % 2 == 1), [])
                 else Parsed(Message(topic, rest[2..], 1, header % 2 == 1), Packet(PUBACK_HEADER, rest[..2]))
  {
    var body := prefix + topic + rest;
    Regroup(prefix, topic, rest);
    DropFront(body, prefix, topic + rest);
    DropFront(body, prefix + topic, rest);
    assert body[2..2 + |topic|] == topic;
    if |rest| >= 2 {
      assert body[2 + |topic|..2 + |topic| + 2] == rest[..2];
      DropTwice(body, 2 + |topic|, 2);
    }
  }

  lemma {:induction false} BodyPieces(m: Message, packetId: nat)
    requires m.qos < 2 && |m.topic| < Pow256(2) && packetId < Pow256(2)
    ensures var id := if m.qos == 0 then [] else BigEndian(packetId, 2);
            PublishBody(m.topic, m.payload, m.qos, packetId) == BigEndian(|m.topic|, 2) + m.topic + (id + m.payload)
  {
    var id := if m.qos == 0 then [] else BigEndian(packetId, 2);
    Regroup(BigEndian(|m.topic|, 2) + m.topic, id, m.payload);
  }

  lemma {:induction false} HeaderReads(qos: nat, retain: bool)
    requires qos < 2
    ensures var header := PublishHeader(qos, retain); header / 2 % 4 == qos && (header % 2 == 1 <==> retain)
  {
  }

  /** Topic, payload, QoS and retain survive, and a QoS 1 message is acknowledged by its own id. */
  lemma {:induction false} PublishRoundTrip(m: Message, packetId: nat, utf8: seq<byte> -> bool)
    requires m.qos < 2 && |m.topic| < Pow256(2) && packetId < Pow256(2) && utf8(m.topic)
    ensures ParsePublish(PublishHeader(m.qos, m.retain), PublishBody(m.topic, m.payload, m.qos, packetId), utf8)
            == Parsed(m, if m.qos == 1 then Packet(PUBACK_HEADER, BigEndian(packetId, 2)) else [])
  {
    hide ParsePublish, PublishHeader, PublishBody, BigEndian;
    HeaderReads(m.qos, m.retain);
    BigEndianRoundTrip(|m.topic|, 2);
    var prefix := BigEndian(|m.topic|, 2);
    var id := if m.qos == 0 then [] else BigEndian(packetId, 2);
    DropFront(id + m.payload, id, m.payload);
    BodyPieces(m, packetId);
    ParsedFields(PublishHeader(m.qos, m.retain), prefix, m.topic, id + m.payload, utf8);
  }
}
