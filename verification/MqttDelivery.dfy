/**
 What a listener is given of what the broker sent (mqtt_lite.py). The broker's packets are fixed
 first; the network then delivers their bytes in any chunks, stalls where it likes, and may fail.
*/
module MqttDelivery {
  import opened Bytes
  import opened Net
  import opened MqttWire
  import opened MqttReading
  import opened MqttConn
  import opened MqttOutgoing

  // ------------------------------------------------------------------ what the broker sends

  /** A PUBLISH, or any packet of another kind. */
  datatype AnyPacket = Pub(m: Message, id: nat) | Notice(raw: Raw)

  predicate Encodable(b: AnyPacket) {
    match b
    case Pub(m, id) => m.qos < 2 && |m.topic| < Pow256(2) && id < Pow256(2)
    case Notice(raw) => raw.header / 16 != 3
  }

  type Outbound = b: AnyPacket | Encodable(b) witness Notice(Raw(PUBACK_HEADER, []))

  function AsRaw(b: Outbound): Raw {
    match b
    case Pub(m, id) => Raw(PublishHeader(m.qos, m.retain), PublishBody(m.topic, m.payload, m.qos, id))
    case Notice(raw) => raw
  }

  function OnWire(b: Outbound): seq<byte> { Packet(AsRaw(b).header, AsRaw(b).body) }

  /** A packet this client can be sent: within its limit, its topic well-formed. */
  predicate Proper(b: Outbound, max: nat, utf8: seq<byte> -> bool) {
    Sendable(AsRaw(b), max) && (b.Pub? ==> utf8(b.m.topic))
  }

  /** The messages among them. */
  function Delivered(sent: seq<Outbound>): seq<Message> {
    if sent == [] then [] else MessageIn(sent[0]) + Delivered(sent[1..])
  }

  function MessageIn(b: Outbound): seq<Message> { if b.Pub? then [b.m] else [] }

  // ------------------------------------------------------------------ stalls between packets

  /** The script is over; or, if it may fail, the next read does. */
  predicate Ends(items: seq<Item>, max: nat, open: bool) {
    items == [] || (!open && ReadOn(items, max).0.Failed?)
  }

  /** The items are these packets, whole and in order, with every pause between two of them. */
  predicate Framed(items: seq<Item>, sent: seq<Outbound>, max: nat, utf8: seq<byte> -> bool, open: bool)
    decreases |items|
  {
    if items != [] && items[0].Pause? then Framed(items[1..], sent, max, utf8, open)
    else if sent == [] then Ends(items, max, open)
    else
      var front := AsItems(OnWire(sent[0]));
      Proper(sent[0], max, utf8) && front <= items && Framed(items[|front|..], sent[1..], max, utf8, open)
  }

  predicate InStep(c: Conn, sent: seq<Outbound>, open: bool) { Framed(c.coming, sent, c.max, c.utf8, open) }

  predicate AllSend(c: Conn) { forall s :: s in c.sends ==> s.Goes? }

  lemma {:induction false} ReadPause(items: seq<Item>, max: nat)
    requires items != [] && items[0].Pause?
    ensures ReadOn(items, max) == (TimedOut(0), items[1..])
  {
    TakeShort([], Pause, items[1..], 1);
    assert AsItems([]) + ([Pause] + items[1..]) == items;
  }

  lemma {:induction false} ReadFirst(items: seq<Item>, b: Outbound, max: nat)
    requires Sendable(AsRaw(b), max) && AsItems(OnWire(b)) <= items
    ensures ReadOn(items, max) == (Whole(AsRaw(b).header, AsRaw(b).body), items[|OnWire(b)|..])
    ensures items != [] && !items[0].Pause?
  {
    var (front, raw) := (AsItems(OnWire(b)), AsRaw(b));
    var rest := items[|front|..];
    assert front + rest == items && items[0] == front[0];
    WholeIsRead(raw.header, raw.body, rest, max);
  }

  lemma {:induction false} ReadFramed(items: seq<Item>, sent: seq<Outbound>, max: nat, utf8: seq<byte> -> bool, open: bool)
    requires Framed(items, sent, max, utf8, open)
    ensures var (r, left) := ReadOn(items, max);
            (r.TimedOut? ==> r.lost == 0 && Framed(left, sent, max, utf8, open))
            && (r.Whole? ==> sent != [] && Proper(sent[0], max, utf8) && AsRaw(sent[0]) == Raw(r.header, r.body)
                             && Framed(left, sent[1..], max, utf8, open))
            && (r.Failed? ==> !open)
  {
    if items != [] && items[0].Pause? {
      ReadPause(items, max);
    } else if sent != [] {
      ReadFirst(items, sent[0], max);
    }
  }

  lemma {:induction false} LaterInStep(sent: seq<Outbound>, j: nat, k: nat)
    requires j + k <= |sent|
    ensures sent[j..][k..] == sent[j + k..]
  {
  }

  /** From c to c', `got` was taken off the front: the first k packets. */
  predicate Took(c': Conn, got: seq<Message>, sent: seq<Outbound>, k: nat, open: bool) {
    k <= |sent| && InStep(c', sent[k..], open) && Delivered(sent) == got + Delivered(sent[k..])
  }

  lemma {:induction false} TookNothing(c: Conn, sent: seq<Outbound>, open: bool)
    requires InStep(c, sent, open)
    ensures Took(c, [], sent, 0, open)
  {
    assert sent[0..] == sent && [] + Delivered(sent) == Delivered(sent);
  }

  lemma {:induction false} TookMore(c: Conn, c': Conn, first: seq<Message>, more: seq<Message>, sent: seq<Outbound>, j: nat, k: nat, open: bool)
    requires Took(c, first, sent, j, open) && Took(c', more, sent[j..], k, open)
    ensures Took(c', first + more, sent, j + k, open)
  {
    LaterInStep(sent, j, k);
    Regroup(first, more, Delivered(sent[j + k..]));
  }

  /** Everything but what a connection reads and sends. */
  ghost predicate SameClient(c: Conn, c': Conn) { c'.early == c.early && c'.max == c.max && c'.utf8 == c.utf8 }

  // ------------------------------------------------------------------ what is written meanwhile

  /** The acknowledgement a packet calls for: four bytes for a PUBLISH at QoS 1, with its id. */
  function AckFor(b: Outbound): seq<seq<byte>> {
    TwoBytes(0);
    if b.Pub? && b.m.qos == 1 then [[64, 2, b.id / 256, b.id % 256]] else []
  }

  function AcksOf(sent: seq<Outbound>): seq<seq<byte>> {
    if sent == [] then [] else AckFor(sent[0]) + AcksOf(sent[1..])
  }

  /** What a client wrote, without its pings. */
  function Answers(out: seq<seq<byte>>): seq<seq<byte>> {
    if out == [] then [] else (if out[0] == PING then [] else [out[0]]) + Answers(out[1..])
  }

  /** From c to c' the client wrote the packets `out`: pings, and one acknowledgement for each of the
      first k packets that calls for one, in order. */
  ghost predicate Writes(c: Conn, c': Conn, out: seq<seq<byte>>, sent: seq<Outbound>, k: nat) {
    k <= |sent| && c'.sent == c.sent + Flatten(out) && Answers(out) == AcksOf(sent[..k])
  }

  lemma {:induction false} WritesNothing(c: Conn, c': Conn, sent: seq<Outbound>)
    requires c'.sent == c.sent
    ensures Writes(c, c', [], sent, 0)
  {
    assert c.sent + [] == c.sent && sent[..0] == [];
  }

  lemma {:induction false} WritesPing(c: Conn, c': Conn, sent: seq<Outbound>)
    requires c'.sent == c.sent + PING
    ensures Writes(c, c', [PING], sent, 0)
  {
    assert sent[..0] == [] && [PING][1..] == [];
    assert Flatten([PING]) == PING + Flatten([]) == PING;
    assert Answers([PING]) == [] + Answers([]);
  }

  lemma {:induction false} WritesAck(c: Conn, c': Conn, sent: seq<Outbound>)
    requires sent != [] && c'.sent == c.sent + Flatten(AckFor(sent[0]))
    ensures Writes(c, c', AckFor(sent[0]), sent, 1)
  {
    assert sent[..1] == [sent[0]] && [sent[0]][1..] == [];
    var out := AckFor(sent[0]);
    assert AcksOf([sent[0]]) == out + [] == out;
    if out != [] { assert out[1..] == [] && out[0] != PING && Answers(out) == [out[0]] + Answers([]); }
  }

  lemma {:induction false} FlattenConcat(a: seq<seq<byte>>, b: seq<seq<byte>>)
    ensures Flatten(a + b) == Flatten(a) + Flatten(b) && Answers(a + b) == Answers(a) + Answers(b)
  {
    if a == [] {
      assert a + b == b;
    } else {
      FlattenConcat(a[1..], b);
      assert (a + b)[1..] == a[1..] + b;
      Regroup(a[0], Flatten(a[1..]), Flatten(b));
      Regroup(if a[0] == PING then [] else [a[0]], Answers(a[1..]), Answers(b));
    }
  }

  lemma {:induction false} AcksConcat(a: seq<Outbound>, b: seq<Outbound>)
    ensures AcksOf(a + b) == AcksOf(a) + AcksOf(b)
  {
    if a == [] {
      assert a + b == b;
    } else {
      AcksConcat(a[1..], b);
      assert (a + b)[1..] == a[1..] + b;
      Regroup(AckFor(a[0]), AcksOf(a[1..]), AcksOf(b));
    }
  }

  lemma {:induction false} WritesMore(c: Conn, c1: Conn, c2: Conn, first: seq<seq<byte>>, more: seq<seq<byte>>,
                                      sent: seq<Outbound>, j: nat, k: nat)
    requires Writes(c, c1, first, sent, j) && Writes(c1, c2, more, sent[j..], k)
    ensures Writes(c, c2, first + more, sent, j + k)
  {
    FlattenConcat(first, more);
    AcksConcat(sent[..j], sent[j..][..k]);
    assert sent[..j] + sent[j..][..k] == sent[..j + k];
    Regroup(c.sent, Flatten(first), Flatten(more));
  }

  /** One turn of the loop on a stream that is in step takes no packet or the next one; it writes a ping
      if one is due, and the acknowledgement of what it took. */
  lemma {:induction false} PollInStep(c: Conn, turn: Turn, sent: seq<Outbound>, open: bool) returns (k: nat, out: seq<seq<byte>>)
    requires InStep(c, sent, open)
    ensures var (next, c') := Poll(c, turn);
            SameClient(c, c')
            && (next.Stalled? ==> next.lost == 0)
            && (!next.Broke? ==> Took(c', Meant(next), sent, k, open))
            && (open && AllSend(c) && !turn.wait.Broken? ==> !next.Broke?)
            && (AllSend(c) ==> AllSend(c'))
            && (AllSend(c) && !next.Broke? ==> Writes(c, c', out, sent, k) && |out| == |Answers(out)| + if turn.ping then 1 else 0)
  {
    hide Answers, ReadNext, Flatten, AckFor, AcksOf;
    PingIs();
    k, out := 0, if turn.ping then [PING] else [];
    TookNothing(c, sent, open);
    var (ok, c1) := if turn.ping then Send(c, Packet(PINGREQ_HEADER, [])) else (true, c);
    PingTurn(c, c1, turn.ping, sent);
    if ok && turn.wait.Readable? {
      k := ReadInStep(c1, sent, open);
      var c2 := ReadNext(c1).1;
      if AllSend(c) && !ReadNext(c1).0.Broke? {
        var more := if k == 1 then AckFor(sent[0]) else [];
        assert sent[0..] == sent;
        WritesMore(c, c1, c2, out, more, sent, 0, k);
        PingsAndAck(out, sent, k);
        out := out + more;
      }
    }
  }

  lemma {:induction false} PingTurn(c: Conn, c1: Conn, ping: bool, sent: seq<Outbound>)
    requires if ping then AllSend(c) ==> c1.sent == c.sent + PING else c1 == c
    ensures AllSend(c) || !ping ==> Writes(c, c1, if ping then [PING] else [], sent, 0)
    ensures |Answers(if ping then [PING] else [])| == 0
  {
    if !ping { WritesNothing(c, c1, sent); } else if AllSend(c) { WritesPing(c, c1, sent); }
    assert [PING][1..] == [] && Answers([PING]) == [] + Answers([]);
  }

  lemma {:induction false} PingsAndAck(pings: seq<seq<byte>>, sent: seq<Outbound>, k: nat)
    requires k <= 1 && k <= |sent| && Answers(pings) == []
    ensures var more := if k == 1 then AckFor(sent[0]) else []; |pings + more| == |Answers(pings + more)| + |pings|
  {
    var more := if k == 1 then AckFor(sent[0]) else [];
    FlattenConcat(pings, more);
    if more != [] { assert more[1..] == [] && Answers(more) == [more[0]] + Answers([]); }
  }

  function Meant(next: Next): seq<Message> { if next.Arrived? then [next.message] else [] }

  lemma {:induction false} ReadInStep(c: Conn, sent: seq<Outbound>, open: bool) returns (k: nat)
    requires InStep(c, sent, open)
    ensures var (next, c') := ReadNext(c);
            SameClient(c, c')
            && (next.Stalled? ==> next.lost == 0)
            && (!next.Broke? ==> Took(c', Meant(next), sent, k, open))
            && (open && AllSend(c) ==> !next.Broke?)
            && (AllSend(c) ==> AllSend(c'))
            && (AllSend(c) && !next.Broke? ==> k <= 1 && k <= |sent| && Writes(c, c', if k == 1 then AckFor(sent[0]) else [], sent, k))
  {
    hide Answers, Writes, AckFor, AcksOf;
    ReadFramed(c.coming, sent, c.max, c.utf8, open);
    var (r, c') := Read(c);
    k := 0;
    TookNothing(c, sent, open);
    if r.Whole? {
      k := 1;
      if sent[0].Pub? {
        PublishRoundTrip(sent[0].m, sent[0].id, c.utf8);
      }
      if AllSend(c) && !ReadNext(c).0.Broke? { PacketWrites(c, c', sent); }
    } else {
      WritesNothing(c, c', sent);
    }
  }

  /** Taking a packet writes its acknowledgement. */
  lemma {:induction false} PacketWrites(c: Conn, c1: Conn, sent: seq<Outbound>)
    requires AllSend(c) && c1 == c.(coming := c1.coming) && sent != [] && Proper(sent[0], c.max, c.utf8)
    ensures var raw := AsRaw(sent[0]);
            var c' := Kept(c1, raw.header, raw.body);
            Writes(c, c', AckFor(sent[0]), sent, 1) && AllSend(c')
            && (raw.header / 16 == PUBLISH ==> Writes(c, Accept(c1, raw.header, raw.body).1, AckFor(sent[0]), sent, 1))
  {
    var raw := AsRaw(sent[0]);
    if sent[0].Pub? {
      PublishRoundTrip(sent[0].m, sent[0].id, c.utf8);
      AckBytes(sent[0]);
      WritesAck(c, Accept(c1, raw.header, raw.body).1, sent);
      WritesAck(c, Kept(c1, raw.header, raw.body), sent);
    } else {
      assert c.sent + Flatten([]) == c.sent;
      WritesAck(c, c1, sent);
    }
  }

  lemma {:induction false} AckBytes(b: Outbound)
    requires b.Pub?
    ensures Flatten(AckFor(b)) == if b.m.qos == 1 then Packet(PUBACK_HEADER, BigEndian(b.id, 2)) else []
  {
    TwoBytes(b.id);
    if b.m.qos == 1 {
      var ack := [64, 2, b.id / 256, b.id % 256];
      AckIs(BigEndian(b.id, 2));
      assert [ack][1..] == [] && Flatten([ack]) == ack + Flatten([]) == ack;
    }
  }

  predicate NeverBroken(turns: seq<Turn>) { forall t :: t in turns ==> !t.wait.Broken? }

  /** A turn of the loop, with its packet's message in front of what the later turns gather. */
  lemma {:induction false} GatherUnfolds(c: Conn, room: nat, turns: seq<Turn>)
    requires room > 0 && turns != [] && !turns[0].expired
    ensures var (next, c') := Poll(c, turns[0]);
            Gather(c, room, turns) == match next
              case Stalled(lost) => Collected([], Timeout, lost, c')
              case Broke => Collected([], Error, 0, c')
              case _ => Gather(c', room - |Meant(next)|, turns[1..]).After(Meant(next))
  {
    var (next, c') := Poll(c, turns[0]);
    if next.Ignored? {
      var g := Gather(c', room, turns[1..]);
      assert [] + g.messages == g.messages;
    }
  }

  /** No byte lost, at most `room` messages, and those the front of what was sent; unless an error
      ended it, the rest is still to come. */
  predicate InOrder(g: Collected, room: nat, sent: seq<Outbound>, k: nat, open: bool) {
    g.lost == 0 && |g.messages| <= room && g.messages <= Delivered(sent) && (g.stopped.MaxMessages? ==> |g.messages| == room)
    && (!g.stopped.Error? ==> Took(g.conn, g.messages, sent, k, open))
  }

  lemma {:induction false} InOrderJoins(c': Conn, more: Collected, first: seq<Message>, room: nat,
                                        sent: seq<Outbound>, j: nat, i: nat, open: bool)
    requires Took(c', first, sent, j, open) && |first| <= room && InOrder(more, room - |first|, sent[j..], i, open)
    ensures InOrder(more.After(first), room, sent, j + i, open)
  {
    if !more.stopped.Error? { TookMore(c', more.conn, first, more.messages, sent, j, i, open); }
  }

  /** Stalls between packets cost nothing; and what was taken has been acknowledged. */
  lemma {:induction false} GatherInStep(c: Conn, room: nat, turns: seq<Turn>, sent: seq<Outbound>, open: bool)
    returns (k: nat, out: seq<seq<byte>>)
    requires InStep(c, sent, open)
    ensures var g := Gather(c, room, turns);
            InOrder(g, room, sent, k, open) && (AllSend(c) && !g.stopped.Error? ==> Writes(c, g.conn, out, sent, k) && AllSend(g.conn))
    decreases |turns|
  {
    hide Poll, InStep, Took, Writes, AllSend;
    k, out := 0, [];
    TookNothing(c, sent, open);
    WritesNothing(c, c, sent);
    if room > 0 && turns != [] && !turns[0].expired {
      GatherUnfolds(c, room, turns);
      k, out := PollInStep(c, turns[0], sent, open);
      var (next, c') := Poll(c, turns[0]);
      if next.Ignored? || next.Arrived? {
        TookWithin(c', Meant(next), sent, k, open);
        var i, more := GatherInStep(c', room - |Meant(next)|, turns[1..], sent[k..], open);
        var g := Gather(c', room - |Meant(next)|, turns[1..]);
        InOrderJoins(c', g, Meant(next), room, sent, k, i, open);
        if AllSend(c) && !g.stopped.Error? { WritesMore(c, c', g.conn, out, more, sent, k, i); }
        k, out := k + i, out + more;
      }
    }
  }

  lemma {:induction false} TookWithin(c': Conn, got: seq<Message>, sent: seq<Outbound>, k: nat, open: bool)
    requires Took(c', got, sent, k, open)
    ensures k <= |sent| && InStep(c', sent[k..], open)
  {
  }

  /** On a stream that does not fail, with sends that succeed, no error ends it. */
  lemma {:induction false} GatherNeverFails(c: Conn, room: nat, turns: seq<Turn>, sent: seq<Outbound>)
    requires InStep(c, sent, true) && AllSend(c) && NeverBroken(turns)
    ensures var g := Gather(c, room, turns);
            !g.stopped.Error? && AllSend(g.conn)
    decreases |turns|
  {
    hide Poll;
    if room > 0 && turns != [] && !turns[0].expired {
      GatherUnfolds(c, room, turns);
      assert turns[0] in turns;
      var k, out := PollInStep(c, turns[0], sent, true);
      var (next, c') := Poll(c, turns[0]);
      if next.Ignored? || next.Arrived? {
        GatherNeverFails(c', room - |Meant(next)|, turns[1..], sent[k..]);
      }
    }
  }

  lemma {:induction false} PollKeepsClient(c: Conn, turn: Turn)
    ensures SameClient(c, Poll(c, turn).1)
  {
  }

  lemma {:induction false} GatherKeepsClient(c: Conn, room: nat, turns: seq<Turn>)
    ensures SameClient(c, Gather(c, room, turns).conn)
    decreases |turns|
  {
    hide Poll;
    if room > 0 && turns != [] && !turns[0].expired {
      PollKeepsClient(c, turns[0]);
      GatherUnfolds(c, room, turns);
      var (next, c') := Poll(c, turns[0]);
      if next.Ignored? || next.Arrived? { GatherKeepsClient(c', room - |Meant(next)|, turns[1..]); }
    }
  }

  /** What the caller is still owed: the early messages, then those among the packets to come. */
  function Owing(c: Conn, sent: seq<Outbound>): seq<Message> { c.early + Delivered(sent) }

  /** The same of a whole `collect`, early messages included. */
  predicate CollectedInOrder(g: Collected, c: Conn, maxMessages: nat, sent: seq<Outbound>, k: nat, open: bool) {
    g.lost == 0 && |g.messages| <= maxMessages && g.messages <= Owing(c, sent)
    && (g.stopped.MaxMessages? ==> |g.messages| == maxMessages)
    && (!g.stopped.Error? ==> k <= |sent| && InStep(g.conn, sent[k..], open)
                              && Owing(c, sent) == g.messages + Owing(g.conn, sent[k..]))
  }

  lemma {:induction false} CollectInStep(c: Conn, maxMessages: nat, turns: seq<Turn>, sent: seq<Outbound>, open: bool)
    returns (k: nat, out: seq<seq<byte>>)
    requires InStep(c, sent, open)
    ensures var g := Collect(c, maxMessages, turns);
            CollectedInOrder(g, c, maxMessages, sent, k, open)
            && (AllSend(c) && !g.stopped.Error? ==> Writes(c, g.conn, out, sent, k) && AllSend(g.conn))
  {
    hide Answers, AcksOf, Gather, InStep, Delivered, AllSend, Flatten;
    var n := if |c.early| < maxMessages then |c.early| else maxMessages;
    var c' := c.(early := c.early[n..]);
    SameStream(c, c', sent, open);
    k, out := GatherInStep(c', maxMessages - n, turns, sent, open);
    GatherKeepsClient(c', maxMessages - n, turns);
    var g := Gather(c', maxMessages - n, turns);
    assert c.early == c.early[..n] + c.early[n..];
    EarlyFirst(c.early[..n], c.early[n..], g.messages, Delivered(sent));
    if !g.stopped.Error? { EarlyThenRest(c.early[..n], c.early[n..], g.messages, Delivered(sent[k..])); }
  }

  lemma {:induction false} SameStream(c: Conn, c': Conn, sent: seq<Outbound>, open: bool)
    requires InStep(c, sent, open) && c' == c.(early := c'.early)
    ensures InStep(c', sent, open) && (AllSend(c) ==> AllSend(c'))
  {
  }

  lemma {:induction false} CollectNeverFails(c: Conn, maxMessages: nat, turns: seq<Turn>, sent: seq<Outbound>)
    requires InStep(c, sent, true) && AllSend(c) && NeverBroken(turns)
    ensures var g := Collect(c, maxMessages, turns); !g.stopped.Error? && AllSend(g.conn)
  {
    var n := if |c.early| < maxMessages then |c.early| else maxMessages;
    GatherNeverFails(c.(early := c.early[n..]), maxMessages - n, turns, sent);
  }

  lemma {:induction false} EarlyFirst(taken: seq<Message>, kept: seq<Message>, got: seq<Message>, all: seq<Message>)
    requires got <= all && (kept != [] ==> got == [])
    ensures taken + got <= taken + kept + all
  {
  }

  lemma {:induction false} EarlyThenRest(taken: seq<Message>, kept: seq<Message>, got: seq<Message>, rest: seq<Message>)
    requires kept != [] ==> got == []
    ensures taken + kept + (got + rest) == taken + got + (kept + rest)
  {
  }

  predicate Batched(l: Listened, c: Conn, count: nat, sent: seq<Outbound>, k: nat, open: bool) {
    Flatten(l.batches) <= Owing(c, sent)
    && (l.ok ==> |l.batches| == count && k <= |sent| && InStep(l.conn, sent[k..], open)
                 && Owing(c, sent) == Flatten(l.batches) + Owing(l.conn, sent[k..]))
  }

  predicate NoneBroken(turns: seq<seq<Turn>>) { forall i :: 0 <= i < |turns| ==> NeverBroken(turns[i]) }

  lemma {:induction false} BatchesInStep(c: Conn, limits: seq<nat>, turns: seq<seq<Turn>>, sent: seq<Outbound>, open: bool)
    returns (k: nat, out: seq<seq<byte>>)
    requires InStep(c, sent, open) && |limits| == |turns|
    ensures var l := Batches(c, limits, turns);
            Batched(l, c, |limits|, sent, k, open) && (open && AllSend(c) && NoneBroken(turns) ==> l.ok)
            && (AllSend(c) && l.ok ==> Writes(c, l.conn, out, sent, k))
    decreases |limits|
  {
    hide Writes;
    k, out := 0, [];
    WritesNothing(c, c, sent);
    assert sent[0..] == sent && [] + Owing(c, sent) == Owing(c, sent);
    if limits != [] {
      k, out := CollectInStep(c, limits[0], turns[0], sent, open);
      if open && AllSend(c) && NoneBroken(turns) { CollectNeverFails(c, limits[0], turns[0], sent); }
      var got := Collect(c, limits[0], turns[0]);
      if got.stopped.Error? {
        OneBatch(got.messages);
      } else {
        var i, more := BatchesInStep(got.conn, limits[1..], turns[1..], sent[k..], open);
        var later := Batches(got.conn, limits[1..], turns[1..]);
        BatchesJoin(c, got, later, |limits|, sent, k, i, open);
        if AllSend(c) && later.ok { WritesMore(c, got.conn, later.conn, out, more, sent, k, i); }
        k, out := k + i, out + more;
      }
    }
  }

  lemma {:induction false} BatchesJoin(c: Conn, got: Collected, more: Listened, count: nat, sent: seq<Outbound>, k: nat, i: nat, open: bool)
    requires k <= |sent| && Owing(c, sent) == got.messages + Owing(got.conn, sent[k..]) && count > 0
    requires Batched(more, got.conn, count - 1, sent[k..], i, open)
    ensures Batched(more.Behind([got.messages]), c, count, sent, k + i, open)
  {
    BatchJoins(got.messages, more, Owing(got.conn, sent[k..]));
    if more.ok {
      LaterInStep(sent, k, i);
      Regroup(got.messages, Flatten(more.batches), Owing(more.conn, sent[k + i..]));
    }
  }

  lemma {:induction false} OneBatch(b: seq<Message>)
    ensures Flatten([b]) == b
  {
    assert Flatten<Message>([]) == [] && [b][1..] == [];
  }

  lemma {:induction false} BatchJoins(first: seq<Message>, more: Listened, owing: seq<Message>)
    requires Flatten(more.batches) <= owing
    ensures Flatten(more.Behind([first]).batches) == first + Flatten(more.batches)
    ensures first + Flatten(more.batches) <= first + owing
  {
    assert ([first] + more.batches)[1..] == more.batches;
  }

  // ------------------------------------------------------------------ subscribing

  predicate IsSuback(b: Outbound) { AsRaw(b).header / 16 == 9 }

  /** A SUBACK for this id whose return code is no refusal. */
  predicate Grants(b: Outbound, id: nat) {
    var body := AsRaw(b).body;
    IsSuback(b) && |body| >= 3 && Two(body[0], body[1]) == id && body[2] != 128
  }

  lemma {:induction false} GrantsGood(b: Outbound, id: nat)
    ensures Grants(b, id) <==> IsSuback(b) && GoodSuback(AsRaw(b).body, id)
  {
    if |AsRaw(b).body| >= 2 { FromTwoBytes(AsRaw(b).body[..2]); }
  }

  /** The first SUBACK is packet k - 1 and grants the subscription; what was owed still is. */
  predicate Granted(c: Conn, c': Conn, sent: seq<Outbound>, k: nat, id: nat, open: bool) {
    0 < k <= |sent| && InStep(c', sent[k..], open) && Owing(c, sent) == Owing(c', sent[k..])
    && Grants(sent[k - 1], id) && forall j :: 0 <= j < k - 1 ==> !IsSuback(sent[j])
  }

  /** A subscription succeeds only on its own SUBACK, the first that came; every PUBLISH before it is
      kept, so the caller is owed what it was owed. */
  lemma {:induction false} SubackInStep(c: Conn, id: nat, sent: seq<Outbound>, open: bool) returns (k: nat, out: seq<seq<byte>>)
    requires InStep(c, sent, open)
    ensures var (ok, c') := AwaitSuback(c, id);
            ok ==> Granted(c, c', sent, k, id, open) && (AllSend(c) ==> Writes(c, c', out, sent, k) && AllSend(c'))
    decreases |c.coming|
  {
    hide Writes, Granted, Answers, AcksOf, InStep, Owing;
    k, out := 0, [];
    if AwaitSuback(c, id).0 {
      SubackStep(c, id, sent, open);
      k, out := 1, AckFor(sent[0]);
      if !IsSuback(sent[0]) {
        var next := NextConn(c);
        var i, more := SubackInStep(next, id, sent[1..], open);
        GrantedLater(c, next, AwaitSuback(c, id).1, sent, i, id, open);
        if AllSend(c) { WritesMore(c, next, AwaitSuback(c, id).1, out, more, sent, 1, i); }
        k, out := i + 1, out + more;
      }
    }
  }

  /** The connection after the packet that was next, if that was no SUBACK. */
  function NextConn(c: Conn): Conn
    requires Read(c).0.Whole?
  {
    var (r, c1) := Read(c);
    Kept(c1, r.header, r.body)
  }

  lemma {:induction false} SubackStep(c: Conn, id: nat, sent: seq<Outbound>, open: bool)
    requires InStep(c, sent, open) && AwaitSuback(c, id).0
    ensures sent != [] && Read(c).0.Whole?
    ensures IsSuback(sent[0]) ==> Granted(c, AwaitSuback(c, id).1, sent, 1, id, open)
    ensures !IsSuback(sent[0]) ==>
              |NextConn(c).coming| < |c.coming| && AwaitSuback(c, id) == AwaitSuback(NextConn(c), id)
              && InStep(NextConn(c), sent[1..], open) && Owing(c, sent) == Owing(NextConn(c), sent[1..])
    ensures AllSend(c) ==> var next := if IsSuback(sent[0]) then AwaitSuback(c, id).1 else NextConn(c);
                           Writes(c, next, AckFor(sent[0]), sent, 1) && AllSend(next)
  {
    hide Proper, Read, AwaitSuback, Granted, Owing, InStep, Writes, AckFor;
    AwaitCases(c, id);
    var (r, c1) := Read(c);
    ReadWhole(c, sent, open);
    GrantsGood(sent[0], id);
    if AllSend(c) { PacketWrites(c, c1, sent); }
    if IsSuback(sent[0]) { SubackFirst(c, c1, id, sent, open); } else { KeptInStep(c, c1, sent, open); }
  }

  lemma {:induction false} SubackFirst(c: Conn, c1: Conn, id: nat, sent: seq<Outbound>, open: bool)
    requires sent != [] && Grants(sent[0], id)
    requires c1 == c.(coming := c1.coming) && InStep(c1, sent[1..], open) && !sent[0].Pub?
    ensures Granted(c, c1, sent, 1, id, open)
  {
    hide InStep;
    assert [] + Delivered(sent[1..]) == Delivered(sent[1..]);
  }

  /** The packet read is the next one sent. */
  lemma {:induction false} ReadWhole(c: Conn, sent: seq<Outbound>, open: bool)
    requires InStep(c, sent, open) && Read(c).0.Whole?
    ensures var (r, c1) := Read(c);
            sent != [] && Proper(sent[0], c.max, c.utf8) && AsRaw(sent[0]) == Raw(r.header, r.body)
            && c1 == c.(coming := c1.coming) && InStep(c1, sent[1..], open)
  {
    ReadFramed(c.coming, sent, c.max, c.utf8, open);
  }

  /** How a wait that succeeds began. */
  lemma {:induction false} AwaitCases(c: Conn, id: nat)
    requires AwaitSuback(c, id).0
    ensures var (r, c1) := Read(c);
            r.Whole?
            && if r.header / 16 == SUBACK then GoodSuback(r.body, id) && AwaitSuback(c, id).1 == c1
               else AwaitGoesOn(c1, r.header, r.body) && |Kept(c1, r.header, r.body).coming| < |c.coming|
                    && AwaitSuback(c, id) == AwaitSuback(Kept(c1, r.header, r.body), id)
  {
  }

  lemma {:induction false} GrantedLater(c: Conn, next: Conn, c': Conn, sent: seq<Outbound>, k: nat, id: nat, open: bool)
    requires sent != [] && !IsSuback(sent[0]) && Owing(c, sent) == Owing(next, sent[1..])
    requires Granted(next, c', sent[1..], k, id, open)
    ensures Granted(c, c', sent, k + 1, id, open)
  {
    LaterInStep(sent, 1, k);
    assert forall j :: 0 < j < |sent| ==> sent[j] == sent[1..][j - 1];
  }

  /** Whether `subscribe` waits on after a packet other than a SUBACK. */
  predicate AwaitGoesOn(c: Conn, header: byte, body: seq<byte>) {
    header / 16 == PUBLISH ==> |c.early| < MAX_EARLY_MESSAGES && Accept(c, header, body).0.Parsed?
  }

  lemma {:induction false} KeptInStep(c: Conn, c1: Conn, sent: seq<Outbound>, open: bool)
    requires InStep(c, sent, open) && sent != [] && Proper(sent[0], c.max, c.utf8)
    requires c1 == c.(coming := c1.coming) && InStep(c1, sent[1..], open)
    requires AwaitGoesOn(c1, AsRaw(sent[0]).header, AsRaw(sent[0]).body)
    ensures var next := Kept(c1, AsRaw(sent[0]).header, AsRaw(sent[0]).body);
            next.coming == c1.coming && InStep(next, sent[1..], open) && Owing(c, sent) == Owing(next, sent[1..])
  {
    if sent[0].Pub? { PublishRoundTrip(sent[0].m, sent[0].id, c.utf8); }
    OwingMoves(c, Kept(c1, AsRaw(sent[0]).header, AsRaw(sent[0]).body), sent);
  }

  /** The connection after a packet other than a SUBACK. */
  function Kept(c: Conn, header: byte, body: seq<byte>): Conn {
    if header / 16 != PUBLISH then c
    else
      var (m, c') := Accept(c, header, body);
      if m.Parsed? then c'.(early := c'.early + [m.message]) else c'
  }

  lemma {:induction false} OwingMoves(c: Conn, c': Conn, sent: seq<Outbound>)
    requires sent != [] && c'.early == c.early + (if sent[0].Pub? then [sent[0].m] else [])
    ensures Owing(c, sent) == Owing(c', sent[1..])
  {
    Regroup(c.early, if sent[0].Pub? then [sent[0].m] else [], Delivered(sent[1..]));
  }

  lemma {:induction false} SubscribeInStep(c: Conn, topicFilter: seq<byte>, sent: seq<Outbound>, open: bool)
    returns (k: nat, request: seq<byte>, out: seq<seq<byte>>)
    requires InStep(c, sent, open) && c.nextId < Pow256(2) && Subscribe(c, topicFilter).0
    ensures var c' := Subscribe(c, topicFilter).1;
            k <= |sent| && InStep(c', sent[k..], open) && Owing(c, sent) == Owing(c', sent[k..])
            && 0 < k && Grants(sent[k - 1], c.nextId) && (forall j :: 0 <= j < k - 1 ==> !IsSuback(sent[j]))
            && IsSubscribe(request, c.nextId, topicFilter)
            && (AllSend(c) ==> AllSend(c') && Writes(c.(sent := c.sent + request), c', out, sent, k))
  {
    hide Writes, AwaitSuback, Answers, DecodePacket, Subscribe;
    var body, asked;
    body, request, asked := SubscribeAsks(c, topicFilter);
    k, out := SubackInStep(asked, c.nextId, sent, open);
    if AllSend(c) { WritesFrom(asked, c.(sent := c.sent + request), Subscribe(c, topicFilter).1, out, sent, k); }
  }

  /** One SUBSCRIBE packet, for this filter and with this id. */
  predicate IsSubscribe(request: seq<byte>, id: nat, topicFilter: seq<byte>) {
    var d := DecodePacket(request, 65540);
    d.Got? && d.rest == [] && AsksFor(d.header, d.body, id, topicFilter)
  }

  lemma {:induction false} WritesFrom(c: Conn, same: Conn, c': Conn, out: seq<seq<byte>>, sent: seq<Outbound>, k: nat)
    requires Writes(c, c', out, sent, k) && same.sent == c.sent
    ensures Writes(same, c', out, sent, k)
  {
  }

  /** A listener on a stream whose every stall falls between packets is given, batch after batch, the
      front of what the broker sent: in order, nothing lost or repeated, and while no error ends it the
      rest is still owed. If the stream does not fail, nothing but the subscription can. */
  lemma {:induction false} ListenDelivers(c: Conn, topicFilter: seq<byte>, limits: seq<nat>, turns: seq<seq<Turn>>,
                                          sent: seq<Outbound>, open: bool)
    returns (k: nat, request: seq<byte>, out: seq<seq<byte>>)
    requires InStep(c, sent, open) && |limits| == |turns| && c.nextId < Pow256(2)
    ensures var l := Listen(c, topicFilter, limits, turns);
            Batched(l, c, |limits|, sent, k, open)
            && (open && AllSend(c) && NoneBroken(turns) ==> l.ok == Subscribe(c, topicFilter).0)
            && (AllSend(c) && l.ok ==>
                  IsSubscribe(request, c.nextId, topicFilter) && Writes(c.(sent := c.sent + request), l.conn, out, sent, k))
  {
    hide Writes, Subscribe, IsSubscribe, Batches;
    k, request, out := 0, [], [];
    if Subscribe(c, topicFilter).0 {
      var j, first;
      j, request, first := SubscribeInStep(c, topicFilter, sent, open);
      var c1 := Subscribe(c, topicFilter).1;
      var more;
      k, more := BatchesLater(c, c1, limits, turns, sent, j, open);
      if AllSend(c) && Batches(c1, limits, turns).ok {
        WritesMore(c.(sent := c.sent + request), c1, Batches(c1, limits, turns).conn, first, more, sent, j, k - j);
      }
      out := first + more;
    } else {
      assert Flatten<Message>([]) == [];
    }
  }

  lemma {:induction false} BatchesLater(c: Conn, c': Conn, limits: seq<nat>, turns: seq<seq<Turn>>, sent: seq<Outbound>, j: nat, open: bool)
    returns (k: nat, out: seq<seq<byte>>)
    requires j <= |sent| && InStep(c', sent[j..], open) && Owing(c, sent) == Owing(c', sent[j..]) && |limits| == |turns|
    ensures var l := Batches(c', limits, turns);
            Batched(l, c, |limits|, sent, k, open) && (open && AllSend(c') && NoneBroken(turns) ==> l.ok)
            && (AllSend(c') && l.ok ==> j <= k && Writes(c', l.conn, out, sent[j..], k - j))
  {
    var i, more := BatchesInStep(c', limits, turns, sent[j..], open);
    k, out := j + i, more;
    if Batches(c', limits, turns).ok { LaterInStep(sent, j, i); }
  }

  // ------------------------------------------------------------------ progress

  /** The broker's bytes, one packet after another. */
  function Stream(sent: seq<Outbound>): seq<byte> {
    if sent == [] then [] else OnWire(sent[0]) + Stream(sent[1..])
  }

  predicate AllProper(sent: seq<Outbound>, max: nat, utf8: seq<byte> -> bool) {
    sent == [] || (Proper(sent[0], max, utf8) && AllProper(sent[1..], max, utf8))
  }

  /** Turns at which there is time left and something to read. */
  predicate Ready(turns: seq<Turn>) { forall t :: t in turns ==> !t.expired && t.wait.Readable? }

  lemma {:induction false} PollFirst(c: Conn, turn: Turn, b: Outbound, tail: seq<Item>)
    requires Proper(b, c.max, c.utf8) && c.coming == AsItems(OnWire(b)) + tail
    requires AllSend(c) && turn.wait.Readable?
    ensures var (next, c') := Poll(c, turn);
            next == (if b.Pub? then Arrived(b.m) else Ignored) && c'.coming == tail && AllSend(c') && SameClient(c, c')
  {
    ReadFirst(c.coming, b, c.max);
    assert c.coming[|OnWire(b)|..] == tail;
    if b.Pub? { PublishRoundTrip(b.m, b.id, c.utf8); }
  }

  /** With packets there to read and turns to read them in, gathering takes them all, or as many
      messages as there is room for. */
  lemma {:induction false} GatherThrough(c: Conn, room: nat, turns: seq<Turn>, sent: seq<Outbound>, tail: seq<Item>) returns (c': Conn)
    requires AllProper(sent, c.max, c.utf8) && c.coming == AsItems(Stream(sent)) + tail
    requires AllSend(c) && Ready(turns) && |sent| <= |turns|
    ensures c'.coming == tail && AllSend(c') && SameClient(c, c')
    ensures Through(Gather(c, room, turns), c', Delivered(sent), room, turns[|sent|..])
    decreases |sent|
  {
    hide Poll, Proper;
    if sent == [] {
      c' := c;
      assert AsItems([]) + tail == tail && turns[0..] == turns;
      ThroughNothing(Gather(c, room, turns), c, room, turns);
    } else {
      StreamFirst(sent, tail);
      var c1 := GatherFirst(c, room, turns, sent[0], AsItems(Stream(sent[1..])) + tail);
      var (m, room') := (MessageIn(sent[0]), if room > 0 then room - |MessageIn(sent[0])| else 0);
      c' := GatherThrough(c1, room', turns[1..], sent[1..], tail);
      assert turns[1..][|sent| - 1..] == turns[|sent|..];
      if room > 0 {
        ThroughJoins(Gather(c1, room', turns[1..]), c', m, Delivered(sent[1..]), room, turns[|sent|..]);
      } else {
        NoRoom(c, turns, c', Delivered(sent), turns[|sent|..]);
      }
    }
  }

  lemma {:induction false} NoRoom(c: Conn, turns: seq<Turn>, c': Conn, all: seq<Message>, later: seq<Turn>)
    ensures Through(Gather(c, 0, turns), c', all, 0, later)
  {
  }

  lemma {:induction false} GatherFirst(c: Conn, room: nat, turns: seq<Turn>, b: Outbound, tail: seq<Item>) returns (c1: Conn)
    requires Proper(b, c.max, c.utf8) && c.coming == AsItems(OnWire(b)) + tail
    requires AllSend(c) && turns != [] && Ready(turns)
    ensures c1.coming == tail && AllSend(c1) && SameClient(c, c1)
    ensures room > 0 ==> Gather(c, room, turns) == Gather(c1, room - |MessageIn(b)|, turns[1..]).After(MessageIn(b))
  {
    assert turns[0] in turns;
    PollFirst(c, turns[0], b, tail);
    c1 := Poll(c, turns[0]).1;
    if room > 0 { GatherUnfolds(c, room, turns); }
  }

  lemma {:induction false} ThroughNothing(g: Collected, c: Conn, room: nat, turns: seq<Turn>)
    requires g == Gather(c, room, turns)
    ensures Through(g, c, [], room, turns)
  {
    assert [] + g.messages == g.messages;
  }

  /** All of it, with the later turns still to come; or as much as there was room for. */
  ghost predicate Through(g: Collected, c': Conn, all: seq<Message>, room: nat, later: seq<Turn>) {
    if room <= |all| then g.messages == all[..room] && g.stopped.MaxMessages? && g.lost == 0
    else g == Gather(c', room - |all|, later).After(all)
  }

  lemma {:induction false} StreamFirst(sent: seq<Outbound>, tail: seq<Item>)
    requires sent != []
    ensures AsItems(Stream(sent)) + tail == AsItems(OnWire(sent[0])) + (AsItems(Stream(sent[1..])) + tail)
  {
    AsItemsConcat(OnWire(sent[0]), Stream(sent[1..]));
    Regroup(AsItems(OnWire(sent[0])), AsItems(Stream(sent[1..])), tail);
  }

  lemma {:induction false} ThroughJoins(more: Collected, c': Conn, first: seq<Message>, rest: seq<Message>, room: nat, later: seq<Turn>)
    requires |first| <= room && Through(more, c', rest, room - |first|, later)
    ensures Through(more.After(first), c', first + rest, room, later)
  {
    if room > |first + rest| { AfterTwice(first, rest, Gather(c', room - |first + rest|, later)); }
  }

  /** The same of a whole `collect`. */
  lemma {:induction false} CollectThrough(c: Conn, maxMessages: nat, turns: seq<Turn>, sent: seq<Outbound>, tail: seq<Item>) returns (c': Conn)
    requires AllProper(sent, c.max, c.utf8) && c.coming == AsItems(Stream(sent)) + tail
    requires AllSend(c) && Ready(turns) && |sent| <= |turns|
    ensures c'.coming == tail && AllSend(c') && c'.max == c.max && c'.utf8 == c.utf8
    ensures maxMessages >= |c.early| ==> c'.early == []
    ensures Through(Collect(c, maxMessages, turns), c', Owing(c, sent), maxMessages, turns[|sent|..])
  {
    hide Poll, Proper;
    var n := if |c.early| < maxMessages then |c.early| else maxMessages;
    var c0 := c.(early := c.early[n..]);
    c' := GatherThrough(c0, maxMessages - n, turns, sent, tail);
    ThroughJoins(Gather(c0, maxMessages - n, turns), c', c.early[..n], Delivered(sent), maxMessages, turns[|sent|..]);
    if n == maxMessages {
      TakeFront(c.early, Delivered(sent), n);
    } else {
      assert c.early[..n] == c.early;
    }
  }

  lemma {:induction false} TakeFront(a: seq<Message>, b: seq<Message>, n: nat)
    requires n <= |a|
    ensures (a[..n] + b)[..n] == (a + b)[..n]
  {
  }

  lemma {:induction false} PollStops(c: Conn, turn: Turn, lost: nat, rest: seq<Item>)
    requires ReadOn(c.coming, c.max) == (TimedOut(lost), rest)
    requires AllSend(c) && turn.wait.Readable?
    ensures var (next, c') := Poll(c, turn); next == Stalled(lost) && c'.coming == rest && SameClient(c, c') && AllSend(c')
  {
  }

  lemma {:induction false} GatherStops(c: Conn, room: nat, turns: seq<Turn>, lost: nat, rest: seq<Item>)
    requires ReadOn(c.coming, c.max) == (TimedOut(lost), rest)
    requires AllSend(c) && Ready(turns) && turns != [] && room > 0
    ensures var g := Gather(c, room, turns);
            g == Collected([], Timeout, lost, g.conn) && g.conn.coming == rest && SameClient(c, g.conn) && AllSend(g.conn)
  {
    assert turns[0] in turns;
    PollStops(c, turns[0], lost, rest);
    GatherUnfolds(c, room, turns);
  }

  /** All that is owed came, and nothing else was there: the caller has it all, or as much as it
      asked for. */
  predicate AllOrEnough(g: Collected, owing: seq<Message>, maxMessages: nat) {
    g.lost == 0
    && if maxMessages <= |owing| then g.stopped.MaxMessages? && g.messages == owing[..maxMessages]
       else g.stopped.Timeout? && g.messages == owing
  }

  /** With the packets there, whatever their chunks, and a readable turn for each, `collect` returns
      everything owed or as many messages as it was asked for. */
  lemma {:induction false} CollectProgress(c: Conn, maxMessages: nat, turns: seq<Turn>, sent: seq<Outbound>)
    requires AllProper(sent, c.max, c.utf8) && c.coming == AsItems(Stream(sent))
    requires AllSend(c) && Ready(turns) && |sent| <= |turns|
    ensures AllOrEnough(Collect(c, maxMessages, turns), Owing(c, sent), maxMessages)
  {
    hide Poll, Proper;
    assert AsItems(Stream(sent)) + [] == AsItems(Stream(sent));
    var c' := CollectThrough(c, maxMessages, turns, sent, []);
    var room := maxMessages - |Owing(c, sent)|;
    if room > 0 {
      var later := turns[|sent|..];
      NothingToRead(c'.max);
      if later != [] { GatherStops(c', room, later, 0, []); }
      assert Owing(c, sent) + [] == Owing(c, sent);
    }
  }

  /** Once time is up nothing is read, waited for or written: the caller is given what was kept for it. */
  lemma {:induction false} TimeIsUp(c: Conn, maxMessages: nat, turns: seq<Turn>)
    requires turns == [] || turns[0].expired
    ensures var n := if |c.early| < maxMessages then |c.early| else maxMessages;
            Collect(c, maxMessages, turns)
            == Collected(c.early[..n], if n == maxMessages then MaxMessages else Timeout, 0, c.(early := c.early[n..]))
  {
    var n := if |c.early| < maxMessages then |c.early| else maxMessages;
    assert c.early[..n] + [] == c.early[..n];
  }

  lemma {:induction false} NothingToRead(max: nat)
    ensures ReadOn([], max) == (TimedOut(0), [])
  {
  }

  /** Whole packets, then a stall after t bytes of the next: exactly those t bytes are gone, and
      `collect` still says only that time was up. */
  lemma {:induction false} StallInside(c: Conn, maxMessages: nat, turns: seq<Turn>, sent: seq<Outbound>, b: Outbound, t: nat, rest: seq<Item>)
    requires AllProper(sent, c.max, c.utf8) && Proper(b, c.max, c.utf8) && t < |OnWire(b)|
    requires c.coming == AsItems(Stream(sent)) + (AsItems(OnWire(b)[..t]) + ([Pause] + rest))
    requires AllSend(c) && Ready(turns) && |sent| < |turns| && maxMessages > |Owing(c, sent)|
    ensures var g := Collect(c, maxMessages, turns);
            g == Collected(Owing(c, sent), Timeout, t, g.conn) && g.conn.coming == rest && g.conn.early == [] && AllSend(g.conn)
            && g.conn.max == c.max && g.conn.utf8 == c.utf8
  {
    StopInside(AsRaw(b).header, AsRaw(b).body, t, Pause, rest, c.max);
    StallAfter(c, maxMessages, turns, sent, AsItems(OnWire(b)[..t]) + ([Pause] + rest), t, rest);
  }

  lemma {:induction false} StallAfter(c: Conn, maxMessages: nat, turns: seq<Turn>, sent: seq<Outbound>,
                                      tail: seq<Item>, t: nat, rest: seq<Item>)
    requires AllProper(sent, c.max, c.utf8) && c.coming == AsItems(Stream(sent)) + tail
    requires ReadOn(tail, c.max) == (TimedOut(t), rest)
    requires AllSend(c) && Ready(turns) && |sent| < |turns| && maxMessages > |Owing(c, sent)|
    ensures var g := Collect(c, maxMessages, turns);
            g == Collected(Owing(c, sent), Timeout, t, g.conn) && g.conn.coming == rest && g.conn.early == [] && AllSend(g.conn)
            && g.conn.max == c.max && g.conn.utf8 == c.utf8
  {
    hide Poll, Proper, ReadOn;
    var c' := CollectThrough(c, maxMessages, turns, sent, tail);
    GatherStops(c', maxMessages - |Owing(c, sent)|, turns[|sent|..], t, rest);
    assert Owing(c, sent) + [] == Owing(c, sent);
  }

  /** Whole packets in front of a stream that is in step keep it in step. */
  lemma {:induction false} FramedAfter(first: seq<Outbound>, items: seq<Item>, later: seq<Outbound>, max: nat,
                                       utf8: seq<byte> -> bool, open: bool)
    requires AllProper(first, max, utf8) && Framed(items, later, max, utf8, open)
    ensures Framed(AsItems(Stream(first)) + items, first + later, max, utf8, open)
    decreases |first|
  {
    hide Proper;
    if first == [] {
      assert AsItems([]) + items == items && first + later == later;
    } else {
      FramedAfter(first[1..], items, later, max, utf8, open);
      StreamFirst(first, items);
      assert (first + later)[1..] == first[1..] + later;
      FirstFramed(first[0], AsItems(Stream(first[1..])) + items, first + later, max, utf8, open);
    }
  }

  lemma {:induction false} FirstFramed(b: Outbound, items: seq<Item>, sent: seq<Outbound>, max: nat, utf8: seq<byte> -> bool, open: bool)
    requires sent != [] && sent[0] == b && Proper(b, max, utf8) && Framed(items, sent[1..], max, utf8, open)
    ensures Framed(AsItems(OnWire(b)) + items, sent, max, utf8, open)
  {
    var (front, all) := (AsItems(OnWire(b)), AsItems(OnWire(b)) + items);
    assert all[|front|..] == items && all[0] == front[0];
  }

  lemma {:induction false} ItemsConcat(a: seq<Event>, b: seq<Event>)
    ensures Items(a + b) == Items(a) + Items(b)
  {
    hide EventItems;
    if a == [] {
      assert a + b == b;
    } else {
      ItemsConcat(a[1..], b);
      assert (a + b)[1..] == a[1..] + b;
      Regroup(EventItems(a[0]), Items(a[1..]), Items(b));
    }
  }

  /** Packets in any chunks, then a stall, then a script that is in step: in step all together. */
  lemma {:induction false} StallBetweenPackets(chunks: seq<Event>, script: seq<Event>, first: seq<Outbound>, later: seq<Outbound>, max: nat,
                            utf8: seq<byte> -> bool, open: bool)
    requires (forall e :: e in chunks ==> e.Data? && e.bytes != []) && Payload(chunks) == Stream(first)
    requires AllProper(first, max, utf8) && Framed(Items(script), later, max, utf8, open)
    ensures Framed(Items(chunks + [Stall] + script), first + later, max, utf8, open)
  {
    hide Proper, AllProper, Items, Framed;
    FlowingItems(chunks);
    ItemsAround(chunks, script);
    FramedPause(Items(script), later, max, utf8, open);
    FramedAfter(first, [Pause] + Items(script), later, max, utf8, open);
  }

  lemma {:induction false} ItemsAround(chunks: seq<Event>, script: seq<Event>)
    ensures Items(chunks + [Stall] + script) == Items(chunks) + ([Pause] + Items(script))
  {
    ItemsConcat(chunks, [Stall] + script);
    Regroup(chunks, [Stall], script);
    assert ([Stall] + script)[1..] == script;
  }

  lemma {:induction false} FramedPause(items: seq<Item>, later: seq<Outbound>, max: nat, utf8: seq<byte> -> bool, open: bool)
    requires Framed(items, later, max, utf8, open)
    ensures Framed([Pause] + items, later, max, utf8, open)
  {
    assert ([Pause] + items)[1..] == items;
  }

  // ------------------------------------------------------------------ every packet read

  /** The packets read one after another, until a read stalls or fails. */
  function Reads(items: seq<Item>, max: nat): seq<Raw>
    decreases |items|
  {
    ReadAgrees(items, max);
    var (r, left) := ReadOn(items, max);
    if r.Whole? then [Raw(r.header, r.body)] + Reads(left, max) else []
  }

  function AsRaws(sent: seq<Outbound>): seq<Raw> {
    if sent == [] then [] else [AsRaw(sent[0])] + AsRaws(sent[1..])
  }

  /** Any number of packets, in any chunks, are read back exactly as sent. */
  lemma {:induction false} PacketsAreReadBack(sent: seq<Outbound>, tail: seq<Item>, max: nat, utf8: seq<byte> -> bool)
    requires AllProper(sent, max, utf8)
    ensures Reads(AsItems(Stream(sent)) + tail, max) == AsRaws(sent) + Reads(tail, max)
    decreases |sent|
  {
    hide ReadOn;
    if sent == [] {
      assert AsItems([]) + tail == tail;
    } else {
      StreamFirst(sent, tail);
      var rest := AsItems(Stream(sent[1..])) + tail;
      ReadFirst(AsItems(Stream(sent)) + tail, sent[0], max);
      assert (AsItems(OnWire(sent[0])) + rest)[|OnWire(sent[0])|..] == rest;
      PacketsAreReadBack(sent[1..], tail, max, utf8);
    }
  }

  predicate Acknowledges(r: Raw, id: nat)
    requires id < Pow256(2)
  {
    r.header / 16 == 4 && |r.body| == 2 && Two(r.body[0], r.body[1]) == id
  }

  lemma {:induction false} AcknowledgesIs(r: Raw, id: nat)
    requires id < Pow256(2)
    ensures Acknowledges(r, id) <==> r.header / 16 == PUBACK && r.body == BigEndian(id, 2)
  {
    TwoBytes(id);
  }

  /** Waiting for a PUBACK succeeds exactly when one with this id is among the packets read. */
  lemma {:induction false} AwaitPubackExact(c: Conn, id: nat)
    requires id < Pow256(2)
    ensures AwaitPuback(c, id).0 <==> exists r :: r in Reads(c.coming, c.max) && Acknowledges(r, id)
    ensures var c' := AwaitPuback(c, id).1; c'.sent == c.sent && c'.nextId == c.nextId
    decreases |c.coming|
  {
    hide ReadOn;
    var (r, c') := Read(c);
    if r.Whole? {
      var first := Raw(r.header, r.body);
      AcknowledgesIs(first, id);
      assert Reads(c.coming, c.max) == [first] + Reads(c'.coming, c.max);
      if Acknowledges(first, id) {
        assert first in Reads(c.coming, c.max);
      } else {
        AwaitPubackExact(c', id);
      }
    }
  }

  /** The PUBLISH these arguments make, or nothing where `publish` refuses them. */
  function Request(c: Conn, topic: seq<byte>, payload: seq<byte>, qos: nat, retain: bool): seq<byte>
    requires c.nextId < Pow256(2)
  {
    if qos < 2 && |topic| < Pow256(2) && |PublishBody(topic, payload, qos, c.nextId)| <= MAX_REMAINING_LENGTH
    then OnWire(Pub(Message(topic, payload, qos, retain), c.nextId)) else []
  }

  /** `publish` succeeds exactly when its arguments fit, the send goes through and, at QoS 1, a PUBACK
      with its own id is read; then exactly that PUBLISH went out. */
  lemma {:induction false} PublishSucceedsIff(c: Conn, topic: seq<byte>, payload: seq<byte>, qos: nat, retain: bool)
    requires c.nextId < Pow256(2)
    ensures var (ok, c') := Publish(c, topic, payload, qos, retain);
            var request := Request(c, topic, payload, qos, retain);
            (ok <==> request != [] && NextSend(c.sends).Goes?
                     && (qos == 1 ==> exists r :: r in Reads(c.coming, c.max) && Acknowledges(r, c.nextId)))
            && c'.sent == c.sent + Outgoing(c.sends, request)
            && c'.nextId == (if qos == 1 && |topic| < Pow256(2) then NextId(c.nextId) else c.nextId)
  {
    assert Pow256(2) == 65536 by { assert Pow256(1) == 256; }
    if Request(c, topic, payload, qos, retain) == [] {
      assert c.sent + [] == c.sent;
    } else if qos == 1 {
      var sending := c.(nextId := NextId(c.nextId));
      AwaitPubackExact(Send(sending, Request(c, topic, payload, qos, retain)).1, c.nextId);
    }
  }

  predicate NoSuback(sent: seq<Outbound>) { sent == [] || (!IsSuback(sent[0]) && NoSuback(sent[1..])) }

  /** A wait for a SUBACK that is on its way, with room for every message before it, succeeds and
      keeps those messages. */
  lemma {:induction false} SubackArrives(c: Conn, id: nat, before: seq<Outbound>, b: Outbound, tail: seq<Item>)
    requires AllProper(before, c.max, c.utf8) && Proper(b, c.max, c.utf8) && NoSuback(before) && Grants(b, id)
    requires c.coming == AsItems(Stream(before)) + (AsItems(OnWire(b)) + tail)
    requires AllSend(c) && |c.early| + |Delivered(before)| <= 32
    ensures var (ok, c') := AwaitSuback(c, id); ok && c'.coming == tail && c'.early == c.early + Delivered(before)
    decreases |before|
  {
    hide ReadOn, Proper, ParsePublish;
    var after := AsItems(OnWire(b)) + tail;
    if before == [] {
      assert AsItems([]) + after == after;
      ReadNextPacket(c, b, tail);
      GrantsGood(b, id);
    } else {
      StreamFirst(before, after);
      var rest := AsItems(Stream(before[1..])) + after;
      ReadNextPacket(c, before[0], rest);
      var next := KeptFirst(c, before[0], rest, id);
      SubackArrives(next, id, before[1..], b, tail);
      Regroup(c.early, MessageIn(before[0]), Delivered(before[1..]));
    }
  }

  /** With 32 of them waiting, one more message before the SUBACK ends the subscription. */
  lemma {:induction false} TooManyEarlyMessages(c: Conn, id: nat, b: Outbound, tail: seq<Item>)
    requires Proper(b, c.max, c.utf8) && b.Pub? && c.coming == AsItems(OnWire(b)) + tail && |c.early| >= 32
    ensures AwaitSuback(c, id) == (false, c.(coming := tail))
  {
    hide ReadOn;
    ReadNextPacket(c, b, tail);
    PublishRoundTrip(b.m, b.id, c.utf8);
  }

  lemma {:induction false} ReadNextPacket(c: Conn, b: Outbound, rest: seq<Item>)
    requires Proper(b, c.max, c.utf8) && c.coming == AsItems(OnWire(b)) + rest
    ensures Read(c) == (Whole(AsRaw(b).header, AsRaw(b).body), c.(coming := rest)) && |rest| < |c.coming|
  {
    ReadFirst(c.coming, b, c.max);
    assert c.coming[|OnWire(b)|..] == rest;
  }

  lemma {:induction false} KeptFirst(c: Conn, b: Outbound, rest: seq<Item>, id: nat) returns (next: Conn)
    requires Proper(b, c.max, c.utf8) && !IsSuback(b) && AllSend(c)
    requires Read(c) == (Whole(AsRaw(b).header, AsRaw(b).body), c.(coming := rest)) && |rest| < |c.coming|
    requires |c.early| + |MessageIn(b)| <= MAX_EARLY_MESSAGES
    ensures next == next.(coming := rest, early := c.early + MessageIn(b)) && next.max == c.max && next.utf8 == c.utf8
    ensures AllSend(next) && AwaitSuback(c, id) == AwaitSuback(next, id)
  {
    hide ReadOn;
    if b.Pub? { PublishRoundTrip(b.m, b.id, c.utf8); }
    next := Kept(c.(coming := rest), AsRaw(b).header, AsRaw(b).body);
    assert c.early + [] == c.early;
  }

  // ------------------------------------------------------------------ after a stall

  /** What a stall after t bytes leaves is at a packet boundary only if it took none. */
  lemma {:induction false} StallKeepsBoundaryOnlyBetweenPackets(sent: seq<Outbound>, t: nat)
    requires sent != [] && t < |OnWire(sent[0])|
    ensures (exists k :: 0 <= k <= |sent| && Stream(sent)[t..] == Stream(sent[k..])) <==> t == 0
  {
    if t == 0 {
      assert sent[0..] == sent && Stream(sent)[0..] == Stream(sent);
    } else {
      forall k | 0 <= k <= |sent| ensures Stream(sent)[t..] != Stream(sent[k..]) {
        SuffixIsShorter(sent, k);
      }
    }
  }

  lemma {:induction false} SuffixIsShorter(sent: seq<Outbound>, k: nat)
    requires sent != [] && k <= |sent|
    ensures k == 0 ==> sent[k..] == sent
    ensures k > 0 ==> |Stream(sent[k..])| + |OnWire(sent[0])| <= |Stream(sent)|
  {
    if k > 1 {
      SuffixIsShorter(sent[1..], k - 1);
      assert sent[1..][k - 1..] == sent[k..];
    }
  }

  /** One message of topic 'a' whose payload spells a message of topic 'b'. */
  function Nested(): Outbound { Pub(Message([97], [0x30, 3, 0, 1, 98], 0, false), 0) }

  function Forged(): Outbound { Pub(Message([98], [], 0, false), 0) }

  /** The stall is not harmless: after five bytes of that one message, the first `collect` returns
      nothing and the second a message of topic 'b', which nobody sent. */
  lemma {:induction false} StallCanForgeAMessage(c: Conn, turns: seq<Turn>)
    requires c.utf8([97]) && c.utf8([98]) && c.max >= 8 && c.early == [] && AllSend(c) && Ready(turns) && turns != []
    requires c.coming == AsItems(OnWire(Nested())[..5]) + ([Pause] + AsItems(OnWire(Nested())[5..]))
    ensures var first := Collect(c, 1, turns);
            first.messages == [] && first.stopped == Timeout && first.lost == 5
            && Collect(first.conn, 1, turns).messages == [Forged().m]
  {
    hide Collect, OnWire, Nested, Forged;
    NestedOnWire();
    NestedIsLost(c, turns);
    ForgedIsRead(Collect(c, 1, turns).conn, turns);
  }

  lemma {:induction false} NestedIsLost(c: Conn, turns: seq<Turn>)
    requires c.utf8([97]) && c.max >= 8 && c.early == [] && AllSend(c) && Ready(turns) && turns != []
    requires c.coming == AsItems(OnWire(Nested())[..5]) + ([Pause] + AsItems(OnWire(Nested())[5..]))
    ensures var first := Collect(c, 1, turns);
            first == Collected([], Timeout, 5, first.conn) && first.conn.coming == AsItems(OnWire(Nested())[5..])
            && first.conn.early == [] && AllSend(first.conn) && first.conn.max == c.max && first.conn.utf8 == c.utf8
  {
    hide Collect, OnWire;
    NestedOnWire();
    assert AsItems(Stream([])) + c.coming == c.coming && Owing(c, []) == [];
    StallInside(c, 1, turns, [], Nested(), 5, AsItems(OnWire(Nested())[5..]));
  }

  lemma {:induction false} ForgedIsRead(c: Conn, turns: seq<Turn>)
    requires c.utf8([98]) && c.max >= 8 && c.early == [] && AllSend(c) && Ready(turns) && turns != []
    requires c.coming == AsItems(OnWire(Forged()))
    ensures Collect(c, 1, turns).messages == [Forged().m]
  {
    hide Collect, OnWire;
    NestedOnWire();
    var sent := [Forged()];
    assert sent[1..] == [] && Stream([]) == [] && Delivered([]) == [];
    assert OnWire(Forged()) + [] == OnWire(Forged());
    CollectProgress(c, 1, turns, sent);
  }

  lemma {:induction false} NestedOnWire()
    ensures |OnWire(Nested())| == 10 && OnWire(Nested())[5..] == OnWire(Forged())
    ensures |AsRaw(Nested()).body| == 8 && |AsRaw(Forged()).body| == 3
  {
    assert BigEndian(1, 2) == [0, 1] by { assert BigEndian(0, 1) == [0]; }
    assert AsRaw(Nested()).body == [0, 1, 97, 0x30, 3, 0, 1, 98];
    assert AsRaw(Forged()).body == [0, 1, 98];
    assert EncodeLength(8) == [8] && EncodeLength(3) == [3];
    assert OnWire(Nested()) == [0x30, 8, 0, 1, 97, 0x30, 3, 0, 1, 98];
    assert OnWire(Forged()) == [0x30, 3, 0, 1, 98];
  }
}
