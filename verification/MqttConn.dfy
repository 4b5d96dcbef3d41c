/**
 What one MQTT connection does (mqtt_lite.py), as functions of all that is coming on its socket:
 subscribing, collecting and publishing. The client's methods are proved to compute them.
*/
module MqttConn {
  import opened Bytes
  import opened Net
  import opened MqttWire
  import opened MqttReading

  const MAX_EARLY_MESSAGES: nat := 32

  /** What one packet meant to a listener. */
  datatype Next = Arrived(message: Message) | Ignored | Stalled(lost: nat) | Broke

  datatype Stop = Timeout | MaxMessages | Error

  /** What the clock and `select` say at one turn of `collect`'s loop. */
  datatype Wait = Readable | Quiet | Broken
  datatype Turn = Turn(expired: bool, ping: bool, wait: Wait)

  /** A connection: what is coming, how sends will end, what was sent, and the client's own fields. */
  datatype Conn = Conn(coming: seq<Item>, sends: seq<Sending>, sent: seq<byte>, early: seq<Message>, nextId: nat,
                       max: nat, utf8: seq<byte> -> bool)

  function Send(c: Conn, data: seq<byte>): (bool, Conn) {
    (NextSend(c.sends).Goes?,
     c.(sent := c.sent + Outgoing(c.sends, data), sends := if c.sends == [] then [] else c.sends[1..]))
  }

  function Read(c: Conn): (r: (Packeted, Conn))
    ensures r.0.Whole? ==> |r.1.coming| < |c.coming|
  {
    ReadAgrees(c.coming, c.max);
    var (p, left) := ReadOn(c.coming, c.max);
    (p, c.(coming := left))
  }

  /** Parse one PUBLISH, acknowledging QoS 1. */
  function Accept(c: Conn, header: byte, body: seq<byte>): (Parsed, Conn) {
    var m := ParsePublish(header, body, c.utf8);
    if m.Parsed? && m.ack != [] then
      var (ok, c') := Send(c, m.ack);
      (if ok then m else NotPublish, c')
    else (m, c)
  }

  /** Read one packet of `collect`'s loop. */
  function ReadNext(c: Conn): (Next, Conn) {
    var (r, c') := Read(c);
    match r
    case TimedOut(lost) => (Stalled(lost), c')
    case Failed => (Broke, c')
    case Whole(header, body) =>
      if header / 16 != PUBLISH then (Ignored, c')
      else
        var (m, c'') := Accept(c', header, body);
        (if m.Parsed? then Arrived(m.message) else Broke, c'')
  }

  /** One turn: ping if due, wait, and read a packet if there is one. */
  function Poll(c: Conn, turn: Turn): (Next, Conn) {
    var (ok, c') := if turn.ping then Send(c, Packet(PINGREQ_HEADER, [])) else (true, c);
    if !ok || turn.wait.Broken? then (Broke, c')
    else if turn.wait.Quiet? then (Ignored, c')
    else ReadNext(c')
  }

  /** `lost` counts the bytes of a packet that a timeout threw away. */
  datatype Collected = Collected(messages: seq<Message>, stopped: Stop, lost: nat, conn: Conn)
  {
    function After(front: seq<Message>): Collected { this.(messages := front + messages) }
  }

  lemma {:induction false} AfterTwice(a: seq<Message>, b: seq<Message>, c: Collected)
    ensures c.After(b).After(a) == c.After(a + b)
  {
    Regroup(a, b, c.messages);
  }

  /** The reading loop of `collect`. */
  function Gather(c: Conn, room: nat, turns: seq<Turn>): Collected
    decreases |turns|
  {
    if room == 0 then Collected([], MaxMessages, 0, c)
    else if turns == [] || turns[0].expired then Collected([], Timeout, 0, c)
    else
      var (next, c') := Poll(c, turns[0]);
      match next
      case Stalled(lost) => Collected([], Timeout, lost, c')
      case Broke => Collected([], Error, 0, c')
      case Ignored => Gather(c', room, turns[1..])
      case Arrived(m) => Gather(c', room - 1, turns[1..]).After([m])
  }

  /** `collect`. */
  function Collect(c: Conn, maxMessages: nat, turns: seq<Turn>): Collected {
    var n := if |c.early| < maxMessages then |c.early| else maxMessages;
    Gather(c.(early := c.early[n..]), maxMessages - n, turns).After(c.early[..n])
  }

  predicate GoodSuback(body: seq<byte>, id: nat) {
    |body| >= 3 && FromBigEndian(body[..2]) == id && body[2] != 0x80
  }

  /** The loop of `subscribe` that waits for the SUBACK. */
  function AwaitSuback(c: Conn, id: nat): (bool, Conn)
    decreases |c.coming|
  {
    var (r, c') := Read(c);
    if !r.Whole? then (false, c')
    else if r.header / 16 == SUBACK then (GoodSuback(r.body, id), c')
    else if r.header / 16 != PUBLISH then AwaitSuback(c', id)
    else if |c'.early| >= MAX_EARLY_MESSAGES then (false, c')
    else
      var (m, c'') := Accept(c', r.header, r.body);
      if m.NotPublish? then (false, c'') else AwaitSuback(c''.(early := c''.early + [m.message]), id)
  }

  function NextId(id: nat): nat { id % 65535 + 1 }

  /** `subscribe`. */
  function Subscribe(c: Conn, topicFilter: seq<byte>): (bool, Conn)
    requires c.nextId < Pow256(2)
  {
    var c0 := c.(nextId := NextId(c.nextId));
    if |topicFilter| > 65535 then (false, c0)
    else
      var (ok, c') := Send(c0, Packet(SUBSCRIBE_HEADER, BigEndian(c.nextId, 2) + Field(topicFilter) + [0]));
      if ok then AwaitSuback(c', c.nextId) else (false, c')
  }

  /** The loop of `publish` that waits for the PUBACK. */
  function AwaitPuback(c: Conn, id: nat): (bool, Conn)
    requires id < Pow256(2)
    decreases |c.coming|
  {
    var (r, c') := Read(c);
    if !r.Whole? then (false, c')
    else if r.header / 16 == PUBACK && r.body == BigEndian(id, 2) then (true, c')
    else AwaitPuback(c', id)
  }

  /** `publish`. */
  function Publish(c: Conn, topic: seq<byte>, payload: seq<byte>, qos: nat, retain: bool): (bool, Conn)
    requires c.nextId < Pow256(2)
  {
    if qos >= 2 || |topic| > 65535 then (false, c)
    else
      var c0 := if qos == 0 then c else c.(nextId := NextId(c.nextId));
      var body := PublishBody(topic, payload, qos, c.nextId);
      if |body| > MAX_REMAINING_LENGTH then (false, c0)
      else
        var (ok, c') := Send(c0, Packet(PublishHeader(qos, retain), body));
        if !ok || qos == 0 then (ok, c') else AwaitPuback(c', c.nextId)
  }

  datatype Listened = Listened(ok: bool, batches: seq<seq<Message>>, conn: Conn)
  {
    function Behind(front: seq<seq<Message>>): Listened { this.(batches := front + batches) }
  }

  /** One `collect` after another, until one ends in an error. */
  function Batches(c: Conn, limits: seq<nat>, turns: seq<seq<Turn>>): Listened
    requires |limits| == |turns|
    decreases |limits|
  {
    if limits == [] then Listened(true, [], c)
    else
      var got := Collect(c, limits[0], turns[0]);
      if got.stopped == Error then Listened(false, [got.messages], got.conn)
      else
        Batches(got.conn, limits[1..], turns[1..]).Behind([got.messages])
  }

  /** A listener's whole life: subscribe, then collect as often as the caller likes. */
  function Listen(c: Conn, topicFilter: seq<byte>, limits: seq<nat>, turns: seq<seq<Turn>>): Listened
    requires |limits| == |turns| && c.nextId < Pow256(2)
  {
    var (ok, c') := Subscribe(c, topicFilter);
    if ok then Batches(c', limits, turns) else Listened(false, [], c')
  }
}
