/**
 The MQTT client (mqtt_lite.py): reading packets from a socket, and the queue of early
 messages that `subscribe` leaves for `collect`.
*/
module MqttClient {
  import opened Bytes
  import opened Net
  import opened MqttWire
  import opened MqttReading
  import opened MqttConn

  // ------------------------------------------------------------------ one step of a loop

  /** A length read so far, with the weight of its next digit. */
  function Scaled(low: nat, weight: nat, l: LengthRead): LengthRead {
    match l
    case Measured(n, taken, left) => Measured(low + weight * n, taken, left)
    case other => other
  }

  /** One more base-128 digit; the source's `|=` adds, because the bits do not overlap. */
  function Add(low: nat, weight: nat, digit: nat): nat { low + weight * digit }

  lemma {:induction false} ReadOneMore(low: nat, weight: nat, items: seq<Item>, i: nat)
    requires i < 4 && Take(items, 1).0.Exactly?
    ensures var (r, left) := Take(items, 1);
            |r.data| == 1
            && Scaled(low, weight, ReadLength(items, i))
               == if r.data[0] < 128 then Measured(Add(low, weight, r.data[0]), i + 1, left)
                  else Scaled(Add(low, weight, r.data[0] - 128), 128 * weight, ReadLength(left, i + 1))
  {
    TakeKeepsOrder(items, 1);
    var (r, left) := Take(items, 1);
    if r.data[0] >= 128 {
      match ReadLength(left, i + 1)
      case Measured(n, _, _) => Distribute(weight, r.data[0] - 128, n);
      case _ =>
    }
  }

  lemma {:induction false} Distribute(w: nat, d: nat, n: nat)
    ensures w * (d + 128 * n) == w * d + (128 * w) * n
  {
    calc {
      w * (d + 128 * n);
      w * d + w * (128 * n);
      { assert w * (128 * n) == (w * 128) * n; }
      w * d + (128 * w) * n;
    }
  }

  lemma {:induction false} PrependTwice(a: seq<byte>, b: seq<byte>, r: Received)
    ensures Prepend(a, Prepend(b, r)) == Prepend(a + b, r)
  {
    if r.Exactly? { Regroup(a, b, r.data); }
  }

  /** What the chunks so far leave to be taken. */
  lemma {:induction false} TakeChunk(chunks: seq<byte>, bytes: seq<byte>, rest: seq<Item>, count: nat)
    requires |chunks| + |bytes| <= count
    ensures var (r, left) := Take(AsItems(bytes) + rest, count - |chunks|);
            var (r', left') := Take(rest, count - |chunks + bytes|);
            Prepend(chunks, r) == Prepend(chunks + bytes, r') && left == left'
  {
    TakeThrough(bytes, rest, count - |chunks|);
    PrependTwice(chunks, bytes, Take(rest, count - |chunks + bytes|).0);
  }

  /** The whole read, as known after some chunks. */
  ghost predicate TakenSoFar(all: (Received, seq<Item>), chunks: seq<byte>, items: seq<Item>, count: nat) {
    |chunks| <= count && all == (Prepend(chunks, Take(items, count - |chunks|).0), Take(items, count - |chunks|).1)
  }

  lemma {:induction false} TakenAtFirst(items: seq<Item>, count: nat)
    ensures TakenSoFar(Take(items, count), [], items, count)
  {
    var r := Take(items, count).0;
    if r.Exactly? { assert [] + r.data == r.data; }
  }

  lemma {:induction false} TakenAtLast(all: (Received, seq<Item>), chunks: seq<byte>, items: seq<Item>)
    requires TakenSoFar(all, chunks, items, |chunks|)
    ensures all == (Exactly(chunks), items)
  {
    assert chunks + [] == chunks;
  }

  /** One more receive, whatever it brings. */
  lemma {:induction false} TakenOneMore(all: (Received, seq<Item>), chunks: seq<byte>, e: Event, before: seq<Item>, after: seq<Item>, count: nat)
    requires TakenSoFar(all, chunks, before, count) && |chunks| < count && Delivers(e, before, after)
    requires e.Data? ==> |chunks| + |e.bytes| <= count
    ensures e.Stall? ==> all == (Expired(|chunks|), after)
    ensures e.Fault? || e == Data([]) ==> all == (Lost, after)
    ensures e.Data? && e.bytes != [] ==> TakenSoFar(all, chunks + e.bytes, after, count)
  {
    if e.Data? && e.bytes != [] {
      TakeChunk(chunks, e.bytes, after, count);
    } else if before != [] {
      assert before[1..] == after;
    }
  }

  /** What the length loop reports of the length it read. */
  predicate LengthOutcome(l: LengthRead, r: Received, n: nat, taken: nat, left: seq<Item>) {
    match l
    case Measured(n', taken', left') => r.Exactly? && n == n' && taken == taken' && left == left'
    case LengthExpired(lost, left') => r == Expired(lost) && left == left'
    case LengthLost(left') => r == Lost && left == left'
  }

  // ------------------------------------------------------------------ the client

  class Client {
    const socket: Socket
    const maxPacket: nat
    const utf8: seq<byte> -> bool
    var nextId: nat
    var early: seq<Message>

    constructor (socket: Socket, maxPacket: nat, utf8: seq<byte> -> bool)
      ensures this.socket == socket && this.maxPacket == maxPacket && this.utf8 == utf8
      ensures nextId == 1 && early == []
    {
      this.socket, this.maxPacket, this.utf8 := socket, maxPacket, utf8;
      nextId, early := 1, [];
    }

    ghost predicate Valid()
      reads this
    {
      1 <= nextId <= 65535
    }

    ghost function State(): Conn
      reads this, socket
    {
      Conn(socket.Coming(), socket.sends, socket.sent, early, nextId, maxPacket, utf8)
    }

    /** `_recv_exact`: a timeout forgets the bytes it had already taken. */
    method RecvExact(count: nat) returns (r: Received)
      modifies socket`script
      ensures (r, socket.Coming()) == Take(old(socket.Coming()), count)
    {
      var chunks: seq<byte> := [];
      ghost var all := Take(socket.Coming(), count);
      TakenAtFirst(socket.Coming(), count);
      while |chunks| < count
        invariant TakenSoFar(all, chunks, socket.Coming(), count)
        decreases count - |chunks|
      {
        var want := count - |chunks|;
        ghost var before := socket.Coming();
        var e := socket.Recv(if want < 65536 then want else 65536);
        TakenOneMore(all, chunks, e, before, socket.Coming(), count);
        match e {
          case Stall => return Expired(|chunks|);
          case Fault => return Lost;
          case Data(bytes) =>
            if bytes == [] {
              return Lost;
            }
            chunks := chunks + bytes;
        }
      }
      TakenAtLast(all, chunks, socket.Coming());
      return Exactly(chunks);
    }

    /** The remaining-length loop of `_read_packet`. */
    method ReadLength() returns (r: Received, n: nat, taken: nat)
      modifies socket`script
      ensures LengthOutcome(MqttReading.ReadLength(old(socket.Coming()), 0), r, n, taken, socket.Coming())
    {
      var weight: nat, i: nat := 1, 0;
      n, taken := 0, 0;
      ghost var whole := MqttReading.ReadLength(socket.Coming(), 0);
      while i < 4
        invariant i <= 4 && whole == Scaled(n, weight, MqttReading.ReadLength(socket.Coming(), i))
      {
        ghost var before := socket.Coming();
        r := RecvExact(1);
        if !r.Exactly? {
          return if r.Expired? then Expired(i) else Lost, n, i;
        }
        ReadOneMore(n, weight, before, i);
        var b := r.data[0];
        if b < 128 {
          n, taken := Add(n, weight, b), i + 1;
          return;
        }
        n, weight, i := Add(n, weight, b - 128), 128 * weight, i + 1;
      }
      return Lost, n, taken;
    }

    /** `_read_packet`. */
    method ReadPacket() returns (r: Packeted)
      modifies socket`script
      ensures (r, State()) == Read(old(State()))
    {
      hide MqttReading.ReadLength;
      var first := RecvExact(1);
      if !first.Exactly? {
        return if first.Expired? then TimedOut(0) else Failed;
      }
      var l, length, taken := ReadLength();
      if !l.Exactly? {
        return if l.Expired? then TimedOut(1 + l.lost) else Failed;
      }
      if length > maxPacket {
        return Failed;
      }
      var body := RecvExact(length);
      match body {
        case Exactly(data) => return Whole(first.data[0], data);
        case Expired(lost) => return TimedOut(1 + taken + lost);
        case Lost => return Failed;
      }
    }

    /** `_packet_id`. */
    method TakeId() returns (id: nat)
      requires Valid()
      modifies this`nextId
      ensures Valid() && id == old(nextId) && nextId == NextId(id)
    {
      id := nextId;
      nextId := nextId % 65535 + 1;
    }

    /** `_send`. */
    method Send(data: seq<byte>) returns (ok: bool)
      modifies socket`sends, socket`sent
      ensures (ok, State()) == MqttConn.Send(old(State()), data)
    {
      ok := socket.SendAll(data);
    }

    /** `_parse_publish` with its acknowledgement. */
    method Accept(header: byte, body: seq<byte>) returns (m: Parsed)
      modifies socket`sends, socket`sent
      ensures (m, State()) == MqttConn.Accept(old(State()), header, body)
    {
      m := ParsePublish(header, body, utf8);
      if m.Parsed? && m.ack != [] {
        var ok := Send(m.ack);
        if !ok {
          m := NotPublish;
        }
      }
    }

    /** Read one packet of `collect`'s loop. */
    method ReadNext() returns (next: Next)
      modifies socket
      ensures (next, State()) == MqttConn.ReadNext(old(State()))
    {
      var r := ReadPacket();
      match r {
        case TimedOut(n) => return Stalled(n);
        case Failed => return Broke;
        case Whole(header, body) =>
          if header / 16 != PUBLISH {
            return Ignored;
          }
          var m := Accept(header, body);
          return if m.Parsed? then Arrived(m.message) else Broke;
      }
    }

    /** One turn of `collect`'s loop. */
    method Poll(turn: Turn) returns (next: Next)
      modifies socket
      ensures (next, State()) == MqttConn.Poll(old(State()), turn)
    {
      if turn.ping {
        var ok := Send(Packet(PINGREQ_HEADER, []));
        if !ok {
          return Broke;
        }
      }
      match turn.wait {
        case Broken => return Broke;
        case Quiet => return Ignored;
        case Readable => next := ReadNext();
      }
    }

    /** The reading loop of `collect`. */
    method Gather(room: nat, turns: seq<Turn>) returns (messages: seq<Message>, stopped: Stop, lost: nat)
      modifies socket
      ensures Collected(messages, stopped, lost, State()) == MqttConn.Gather(old(State()), room, turns)
    {
      hide MqttConn.Poll;
      messages, lost := [], 0;
      var turn := 0;
      ghost var whole := MqttConn.Gather(State(), room, turns);
      assert turns[0..] == turns && whole.After([]) == whole;
      while |messages| < room
        invariant |messages| <= room && turn <= |turns|
        invariant whole == MqttConn.Gather(State(), room - |messages|, turns[turn..]).After(messages)
        decreases |turns| - turn
      {
        if turn >= |turns| || turns[turn].expired {
          return messages, Timeout, 0;
        }
        assert turns[turn..][1..] == turns[turn + 1..];
        var next := Poll(turns[turn]);
        turn := turn + 1;
        match next {
          case Stalled(n) => return messages, Timeout, n;
          case Broke => return messages, Error, 0;
          case Ignored =>
          case Arrived(m) =>
            AfterTwice(messages, [m], MqttConn.Gather(State(), room - |messages| - 1, turns[turn..]));
            messages := messages + [m];
        }
      }
      return messages, MaxMessages, 0;
    }

    /** `collect`. */
    method Collect(maxMessages: nat, turns: seq<Turn>) returns (messages: seq<Message>, stopped: Stop, lost: nat)
      modifies this`early, socket
      ensures Collected(messages, stopped, lost, State()) == MqttConn.Collect(old(State()), maxMessages, turns)
    {
      var n := if |early| < maxMessages then |early| else maxMessages;
      messages, early := early[..n], early[n..];
      var more;
      more, stopped, lost := Gather(maxMessages - n, turns);
      messages := messages + more;
    }

    /** `subscribe`. */
    method Subscribe(topicFilter: seq<byte>) returns (ok: bool)
      requires Valid()
      modifies this, socket
      ensures Valid() && (ok, State()) == MqttConn.Subscribe(old(State()), topicFilter)
    {
      var id := TakeId();
      if |topicFilter| > 65535 {
        return false;
      }
      ok := Send(Packet(SUBSCRIBE_HEADER, BigEndian(id, 2) + Field(topicFilter) + [0]));
      if !ok {
        return;
      }
      ghost var rest := AwaitSuback(State(), id);
      while true
        invariant Valid() && AwaitSuback(State(), id) == rest
        decreases |socket.Coming()|
      {
        var r := ReadPacket();
        if !r.Whole? {
          return false;
        }
        if r.header / 16 == SUBACK {
          ok := GoodSuback(r.body, id);
          return;
        }
        if r.header / 16 == PUBLISH {
          if |early| >= MAX_EARLY_MESSAGES {
            return false;
          }
          var m := Accept(r.header, r.body);
          if m.NotPublish? {
            return false;
          }
          early := early + [m.message];
        }
      }
    }

    /** `publish`: any PUBLISH read while waiting for the acknowledgement is discarded. */
    method Publish(topic: seq<byte>, payload: seq<byte>, qos: nat, retain: bool) returns (ok: bool)
      requires Valid()
      modifies this`nextId, socket
      ensures Valid() && (ok, State()) == MqttConn.Publish(old(State()), topic, payload, qos, retain)
    {
      if qos >= 2 || |topic| > 65535 {
        return false;
      }
      var id := nextId;
      if qos == 1 {
        id := TakeId();
      }
      var body := PublishBody(topic, payload, qos, id);
      if |body| > MAX_REMAINING_LENGTH {
        return false;
      }
      ok := Send(Packet(PublishHeader(qos, retain), body));
      if !ok || qos == 0 {
        return;
      }
      ghost var rest := AwaitPuback(State(), id);
      while true
        invariant Valid() && AwaitPuback(State(), id) == rest
        decreases |socket.Coming()|
      {
        var r := ReadPacket();
        if !r.Whole? {
          return false;
        }
        if r.header / 16 == PUBACK && r.body == BigEndian(id, 2) {
          return true;
        }
      }
    }

    /** A listener's whole life: subscribe, then collect as often as the caller likes. */
    method Listen(topicFilter: seq<byte>, limits: seq<nat>, turns: seq<seq<Turn>>)
      returns (ok: bool, batches: seq<seq<Message>>)
      requires Valid() && |limits| == |turns|
      modifies this, socket
      ensures Listened(ok, batches, State()) == MqttConn.Listen(old(State()), topicFilter, limits, turns)
    {
      batches := [];
      ok := Subscribe(topicFilter);
      if !ok {
        return;
      }
      ghost var whole := Batches(State(), limits, turns);
      assert limits[0..] == limits && turns[0..] == turns && [] + whole.batches == whole.batches;
      var i := 0;
      while i < |limits|
        invariant i <= |limits|
        invariant whole == Batches(State(), limits[i..], turns[i..]).Behind(batches)
      {
        assert limits[i..][1..] == limits[i + 1..] && turns[i..][1..] == turns[i + 1..];
        var got, stopped, lost := Collect(limits[i], turns[i]);
        i := i + 1;
        ghost var more := Batches(State(), limits[i..], turns[i..]);
        Regroup(batches, [got], more.batches);
        batches := batches + [got];
        if stopped == Error {
          ok := false;
          return;
        }
      }
    }
  }
}
