/**
 What one MQTT client writes (mqtt_lite.py), byte by byte: sections 3.3, 3.4, 3.8 and 3.12 of
 MQTT 3.1.1.
*/
module MqttOutgoing {
  import opened Bytes
  import opened Net
  import opened MqttWire
  import opened MqttReading
  import opened MqttConn

  const PING: seq<byte> := [192, 0]

  lemma {:induction false} PingIs()
    ensures Packet(PINGREQ_HEADER, []) == PING
  {
    assert EncodeLength(0) == [0];
  }

  /** An acknowledgement is four bytes: its kind, its length and the id. */
  lemma {:induction false} AckIs(id: seq<byte>)
    requires |id| == 2
    ensures Packet(PUBACK_HEADER, id) == [64, 2] + id
  {
    assert EncodeLength(2) == [2];
  }

  // ------------------------------------------------------------------ SUBSCRIBE

  /** A SUBSCRIBE for one filter at QoS 0: id, filter with its length, and a zero. */
  predicate AsksFor(header: byte, body: seq<byte>, id: nat, topicFilter: seq<byte>) {
    var n := |topicFilter|;
    header == 130 && |body| == n + 5 && Two(body[0], body[1]) == id && Two(body[2], body[3]) == n
    && body[4..n + 4] == topicFilter && body[n + 4] == 0
  }

  /** The id after this one: never 0. */
  function OneOn(id: nat): nat { if id == 65535 then 1 else id + 1 }

  /** What an attempt to send left of a client: `request` is on the wire as far as the socket took it. */
  ghost predicate Attempted(c: Conn, c': Conn, request: seq<byte>) {
    c'.coming == c.coming && c'.early == c.early && c'.max == c.max && c'.utf8 == c.utf8
    && c'.sent == c.sent + Outgoing(c.sends, request) && c'.sends == if c.sends == [] then [] else c.sends[1..]
  }

  /** `subscribe` asks for exactly its filter under its own id, in one packet; a filter that is too long
      is refused and nothing sent; a send that fails ends it; then the wait begins. */
  lemma {:induction false} SubscribeAsks(c: Conn, topicFilter: seq<byte>) returns (body: seq<byte>, request: seq<byte>, asked: Conn)
    requires c.nextId < Pow256(2)
    ensures var (ok, c') := Subscribe(c, topicFilter);
            if |topicFilter| > 65535 then !ok && c' == c.(nextId := OneOn(c.nextId))
            else DecodePacket(request, 65540) == Got(130, body, []) && AsksFor(130, body, c.nextId, topicFilter)
                 && Attempted(c, asked, request) && asked.nextId == OneOn(c.nextId)
                 && (ok, c') == if NextSend(c.sends).Goes? then AwaitSuback(asked, c.nextId) else (false, asked)
  {
    hide AwaitSuback, DecodePacket, AsksFor, Packet, Field, BigEndian, Pow256, Outgoing;
    TwoBytes(0);
    var n := |topicFilter|;
    body, request, asked := [], [], c;
    if n <= 65535 {
      SubscribeBody(c.nextId, topicFilter);
      body := BigEndian(c.nextId, 2) + Field(topicFilter) + [0];
      request := Packet(SUBSCRIBE_HEADER, body);
      PacketRoundTrip(130, body, [], 65540);
      assert Packet(130, body) + [] == Packet(130, body);
      asked := Send(c.(nextId := NextId(c.nextId)), request).1;
    }
  }

  lemma {:induction false} SubscribeBody(id: nat, topicFilter: seq<byte>)
    requires id < 65536 && |topicFilter| < 65536
    ensures Pow256(2) == 65536 && AsksFor(130, BigEndian(id, 2) + Field(topicFilter) + [0], id, topicFilter)
    ensures |BigEndian(id, 2) + Field(topicFilter) + [0]| == |topicFilter| + 5
  {
    hide BigEndian, Pow256;
    TwoBytes(id);
    TwoBytes(|topicFilter|);
    var body := BigEndian(id, 2) + Field(topicFilter) + [0];
    assert body == [id / 256, id % 256, |topicFilter| / 256, |topicFilter| % 256] + topicFilter + [0];
  }

  // ------------------------------------------------------------------ PUBLISH

  /** A PUBLISH: kind, QoS and retain in its header; topic with its length, id at QoS 1, payload. */
  predicate Publishes(header: byte, body: seq<byte>, m: Message, id: nat) {
    var n := |m.topic|;
    header == 48 + 2 * m.qos + (if m.retain then 1 else 0) && |body| == n + 2 + 2 * m.qos + |m.payload|
    && Two(body[0], body[1]) == n && body[2..n + 2] == m.topic
    && (m.qos == 1 ==> Two(body[n + 2], body[n + 3]) == id) && body[n + 2 + 2 * m.qos..] == m.payload
  }

  lemma {:induction false} PublishBytes(m: Message, id: nat)
    requires m.qos < 2 && |m.topic| < 65536 && id < 65536
    ensures Pow256(2) == 65536 && Publishes(PublishHeader(m.qos, m.retain), PublishBody(m.topic, m.payload, m.qos, id), m, id)
    ensures |PublishBody(m.topic, m.payload, m.qos, id)| == |m.topic| + 2 + 2 * m.qos + |m.payload|
  {
    hide BigEndian, Pow256;
    TwoBytes(id);
    TwoBytes(|m.topic|);
    var (front, tag) := ([|m.topic| / 256, |m.topic| % 256], if m.qos == 0 then [] else [id / 256, id % 256]);
    var (n, body) := (|m.topic|, PublishBody(m.topic, m.payload, m.qos, id));
    assert body == front + m.topic + tag + m.payload;
    DropFront(body, front + m.topic + tag, m.payload);
    DropFront(front + m.topic + tag, front + m.topic, tag);
    DropFront(front + m.topic, front, m.topic);
    assert body[2..n + 2] == m.topic && (m.qos == 1 ==> body[n + 2] == tag[0] && body[n + 3] == tag[1]);
    assert body[0] == front[0] && body[1] == front[1];
  }

  /** `publish` sends exactly its message, under its own id at QoS 1, in one packet; what does not fit is
      refused and nothing sent; a send that fails ends it, and so does one that works at QoS 0. */
  lemma {:induction false} PublishAsks(c: Conn, m: Message) returns (body: seq<byte>, request: seq<byte>, asked: Conn)
    requires c.nextId < Pow256(2)
    ensures var (ok, c') := Publish(c, m.topic, m.payload, m.qos, m.retain);
            var id := if m.qos == 1 && |m.topic| <= 65535 then OneOn(c.nextId) else c.nextId;
            if m.qos > 1 || |m.topic| > 65535 || |m.topic| + 2 + 2 * m.qos + |m.payload| > 268435455 then
              !ok && c' == c.(nextId := id)
            else
              var header := 48 + 2 * m.qos + if m.retain then 1 else 0;
              DecodePacket(request, 268435455) == Got(header, body, []) && Publishes(header, body, m, c.nextId)
              && Attempted(c, asked, request) && asked.nextId == id
              && (ok, c') == if NextSend(c.sends).Goes? && m.qos == 1 then AwaitPuback(asked, c.nextId)
                             else (NextSend(c.sends).Goes?, asked)
  {
    hide AwaitPuback, DecodePacket, Packet, PublishBody;
    body, request, asked := [], [], c;
    TwoBytes(0);
    if m.qos < 2 && |m.topic| <= 65535 {
      PublishBytes(m, c.nextId);
      body := PublishBody(m.topic, m.payload, m.qos, c.nextId);
      if |body| <= 268435455 {
        var header := PublishHeader(m.qos, m.retain);
        request := Packet(header, body);
        PacketRoundTrip(header, body, [], 268435455);
        assert request + [] == request;
        asked := Send(if m.qos == 0 then c else c.(nextId := NextId(c.nextId)), request).1;
      }
    }
  }

  /** What `_parse_publish` accepts, for any bytes: the topic, the id at QoS 1 and 2 and the payload are
      the whole body. It refuses QoS 3, a body that is too short and a topic that is not UTF-8. */
  lemma {:induction false} ParsedIsWhole(header: byte, body: seq<byte>, utf8: seq<byte> -> bool)
    ensures var (qos, p) := (header / 2 % 4, ParsePublish(header, body, utf8));
            var (n, extra) := (if |body| < 2 then 0 else Two(body[0], body[1]), if qos == 0 then 0 else 2);
            && (p.Parsed? <==> qos != 3 && |body| >= 2 + n + extra && utf8(body[2..n + 2]))
            && (p.Parsed? ==> var m := p.message;
                  m.qos == qos && (m.retain <==> header % 2 == 1) && |m.topic| == n
                  && body == body[..2] + m.topic + body[n + 2..n + 2 + extra] + m.payload)
  {
    if |body| >= 2 { FromTwoBytes(body[..2]); }
  }

  // ------------------------------------------------------------------ PUBACK

  /** Any PUBLISH that is accepted at QoS 1 is acknowledged at once by the two bytes of its own id, and
      nothing else is sent for a packet. */
  lemma {:induction false} AcceptedIsAcknowledged(c: Conn, header: byte, body: seq<byte>)
    ensures var (m, c') := Accept(c, header, body);
            && (m.Parsed? && m.message.qos == 1 ==>
                  var n := 2 + |m.message.topic|;
                  n + 2 <= |body| && NextSend(c.sends).Goes? && Attempted(c, c', [64, 2] + body[n..n + 2]))
            && (m.Parsed? && m.message.qos != 1 ==> c' == c)
            && (NextSend(c.sends).Goes? && m.NotPublish? ==> c' == c)
  {
    hide Packet;
    var m := ParsePublish(header, body, c.utf8);
    if m.Parsed? && m.message.qos == 1 {
      var n := 2 + FromBigEndian(body[..2]);
      AckIs(body[n..n + 2]);
    }
  }
}
