/**
 The WebSocket client (ws_lite.py): a receive buffer in front of the socket, frames read under
 deadlines, and `recv_text`.
*/
module WebSocketClient {
  import opened Bytes
  import opened Net
  import opened Wrappers
  import opened WebSocketWire
  import opened WebSocketReading

  /** A frame handed to `sendall`, its mask, and how the send ended. */
  datatype Attempt = Attempt(frame: Frame, mask: Mask, end: Sending)
  {
    /** What of it reached the wire. */
    function OnWire(): seq<byte>
      requires |frame.payload| < Pow256(8)
    {
      Outgoing([end], ClientFrame(frame.opcode, frame.payload, mask))
    }
  }

  type Sent = seq<Attempt>

  predicate Small(sent: Sent) { forall i :: 0 <= i < |sent| ==> |sent[i].frame.payload| < Pow256(8) }

  function Wire(sent: Sent): seq<byte>
    requires Small(sent)
  {
    if sent == [] then [] else Wire(sent[..|sent| - 1]) + sent[|sent| - 1].OnWire()
  }

  /** The frames that went out whole. */
  function FramesOf(sent: Sent): seq<Frame> {
    if sent == [] then []
    else FramesOf(sent[..|sent| - 1]) + if sent[|sent| - 1].end.Goes? then [sent[|sent| - 1].frame] else []
  }

  lemma {:induction false} SentGrows(sent: Sent, a: Attempt)
    requires Small(sent) && |a.frame.payload| < Pow256(8)
    ensures var grown := sent + [a];
            Small(grown) && Wire(grown) == Wire(sent) + a.OnWire()
            && FramesOf(grown) == FramesOf(sent) + if a.end.Goes? then [a.frame] else []
  {
    assert (sent + [a])[..|sent|] == sent;
  }

  class Client {
    const socket: Socket
    const urandom: nat -> Mask
    var buffer: seq<byte>
    var draws: nat
    ghost var sent: Sent

    constructor (socket: Socket, urandom: nat -> Mask, buffer: seq<byte>)
      requires socket.sent == []
      ensures this.socket == socket && this.buffer == buffer && sent == [] && Valid()
    {
      this.socket, this.urandom, this.buffer := socket, urandom, buffer;
      this.draws, this.sent := 0, [];
    }

    /** The bytes on the wire are exactly what the sends so far put there. */
    ghost predicate Valid()
      reads this, socket
    {
      Small(sent) && socket.sent == Wire(sent)
    }

    /** Received or not, every byte the caller has not been given yet. */
    function Unread(): seq<byte>
      reads this, socket
    {
      buffer + socket.Pending()
    }

    /** The same with the pauses and the cut among them. */
    ghost function Coming(): seq<Item>
      reads this, socket
    {
      AsItems(buffer) + socket.Coming()
    }

    /** `_recv_exact`: bytes leave the buffer only when all of them are there. */
    method RecvExact(count: nat) returns (r: Taken)
      modifies this`buffer, socket`script
      ensures r.Exactly? ==> |r.data| == count && r.data + Unread() == old(Unread())
      ensures !r.Exactly? ==> Unread() == old(Unread()) && |buffer| < count
      ensures old(socket.Flowing()) ==> socket.Flowing()
      ensures old(socket.Flowing()) && |old(Unread())| >= count ==> r.Exactly?
      ensures (r, Coming()) == Take(old(Coming()), count)
    {
      hide Take;
      while |buffer| < count
        invariant Unread() == old(Unread()) && Coming() == old(Coming())
        invariant old(socket.Flowing()) ==> socket.Flowing()
        decreases count - |buffer|
      {
        var want := count - |buffer|;
        ghost var before := socket.Coming();
        var e := socket.Recv(if want < 4096 then 4096 else want);
        Receiving(buffer, e, before, socket.Coming(), count);
        match e {
          case Stall => return TimedOut;
          case Fault => return Lost;
          case Data(bytes) =>
            if bytes == [] {
              return Lost;
            }
            Regroup(buffer, bytes, socket.Pending());
            buffer := buffer + bytes;
        }
      }
      var data := buffer[..count];
      assert buffer == data + buffer[count..];
      Regroup(data, buffer[count..], socket.Pending());
      TakeFromBuffer(data, buffer[count..], socket.Coming());
      buffer := buffer[count..];
      return Exactly(data);
    }

    /** The extended length field, if the second byte calls for one. */
    method ReadLengthField(second: byte) returns (ok: bool, length: nat)
      modifies this`buffer, socket`script
      ensures ok ==> ReadLength(second, old(Unread())) == Length(length, Unread())
      ensures !ok ==> !(old(socket.Flowing()) && ReadLength(second, old(Unread())).Length?)
      ensures (if ok then Some(length) else None, Coming()) == LengthOn(second, old(Coming()))
      ensures old(socket.Flowing()) ==> socket.Flowing()
    {
      length := second;
      if second >= 126 {
        ghost var before := Unread();
        var field := RecvExact(if second == 126 then 2 else 8);
        if !field.Exactly? {
          return false, 0;
        }
        DropFront(before, field.data, Unread());
        length := FromBigEndian(field.data);
      }
      ok := true;
    }

    /** `_read_rest`; here a timeout is already an error. */
    method ReadRest(first: byte, second: byte) returns (r: FrameResult)
      modifies this`buffer, socket`script
      ensures !r.Late?
      ensures r.Whole? ==> ReadFrame([first, second] + old(Unread())) == Got(r.frame, Unread())
      ensures old(socket.Flowing()) ==> socket.Flowing()
      ensures old(socket.Flowing()) && ReadFrame([first, second] + old(Unread())).Got? ==> r.Whole?
      ensures (r, Coming()) == RestOn(first, second, old(Coming()))
    {
      hide Take, LengthOn;
      ghost var s := [first, second] + Unread();
      assert s[2..] == Unread();
      if first / 16 % 8 != 0 || second >= 128 {
        return Failed;
      }
      var ok, length := ReadLengthField(second);
      if !ok {
        return Failed;
      }
      var fin, opcode := first >= 128, first % 16;
      if length > MAX_MESSAGE_BYTES || (opcode >= CLOSE && (!fin || length > 125)) {
        return Failed;
      }
      ghost var rest := Unread();
      var payload := RecvExact(length);
      if !payload.Exactly? {
        return Failed;
      }
      DropFront(rest, payload.data, Unread());
      return Whole(Frame(fin, opcode, payload.data));
    }

    /** `_read_frame`: only a timeout before the frame's header is still harmless. */
    method ReadOne() returns (r: FrameResult)
      modifies this`buffer, socket`script
      ensures r.Whole? ==> ReadFrame(old(Unread())) == Got(r.frame, Unread())
      ensures r.Late? ==> Unread() == old(Unread())
      ensures old(socket.Flowing()) ==> socket.Flowing()
      ensures old(socket.Flowing()) && ReadFrame(old(Unread())).Got? ==> r.Whole?
      ensures (r, Coming()) == ReadOn(old(Coming()))
    {
      hide Take, RestOn;
      var header := RecvExact(2);
      if !header.Exactly? {
        return if header.TimedOut? then Late else Failed;
      }
      assert header.data == [header.data[0], header.data[1]];
      r := ReadRest(header.data[0], header.data[1]);
    }

    /** `_send_frame`; a send that fails may have put the first bytes of the frame on the wire. */
    method SendFrame(opcode: Opcode, payload: seq<byte>) returns (ok: bool)
      requires Valid() && |payload| < Pow256(8)
      modifies this`draws, this`sent, socket`sends, socket`sent
      ensures Valid()
      ensures sent == old(sent) + [Attempt(Frame(true, opcode, payload), old(urandom(draws)), old(NextSend(socket.sends)))]
      ensures FramesOf(sent) == FramesOf(old(sent)) + if ok then [Frame(true, opcode, payload)] else []
      ensures (ok, socket.sends) == SendOn(old(socket.sends))
      ensures old(socket.SendsSucceed()) ==> ok && socket.SendsSucceed()
    {
      var mask := urandom(draws);
      draws := draws + 1;
      ghost var attempt := Attempt(Frame(true, opcode, payload), mask, NextSend(socket.sends));
      ok := socket.SendAll(ClientFrame(opcode, payload, mask));
      SentGrows(sent, attempt);
      sent := sent + [attempt];
    }

    method Answer(a: Action) returns (ok: bool)
      requires Valid() && forall f :: f in a.answer ==> f.fin && |f.payload| < Pow256(8)
      requires |a.answer| <= 1
      modifies this`draws, this`sent, socket`sends, socket`sent
      ensures Valid()
      ensures ok ==> FramesOf(sent) == FramesOf(old(sent)) + a.answer
      ensures !ok ==> FramesOf(sent) == FramesOf(old(sent))
      ensures (ok, socket.sends) == if |a.answer| == 1 then SendOn(old(socket.sends)) else (true, old(socket.sends))
      ensures old(socket.SendsSucceed()) ==> ok && socket.SendsSucceed()
    {
      ok := true;
      if |a.answer| == 1 {
        assert a.answer == [a.answer[0]];
        ok := SendFrame(a.answer[0].opcode, a.answer[0].payload);
      }
    }

    /** Send the answer a frame calls for, then end or go on. */
    method Act(action: Action, ghost from: seq<byte>, ghost answers: seq<Frame>)
      returns (t: Turned, ghost answer: seq<Frame>)
      requires Valid() && Grown(from, Unread(), action, answers)
      modifies this`draws, this`sent, socket`sends, socket`sent
      ensures Valid() && FramesOf(sent) == FramesOf(old(sent)) + answer
      ensures t.Ended? ==> !t.r.Nothing?
      ensures t.Ended? && t.r.Message? ==> Receive(from, [], false) == Reply(Text(t.r.bytes), Unread(), answers + answer)
      ensures t.GoesOn? ==> InPart(from, Unread(), t.message, t.started, answers + answer)
      ensures (t, socket.sends) == ActOn(action, old(socket.sends))
      ensures old(socket.SendsSucceed()) ==> socket.SendsSucceed()
      ensures old(socket.SendsSucceed()) && Receive(from, [], false).outcome.Text? ==> t.GoesOn? || t.r.Message?
    {
      var ok := Answer(action);
      answer := if ok then action.answer else [];
      if action.Stop? && action.outcome.PeerClosed? {
        return Ended(Closed), answer;
      }
      if !ok {
        return Ended(Error), answer;
      }
      if action.Stop? {
        return Ended(if action.outcome.Text? then Message(action.outcome.message) else Error), answer;
      }
      return GoesOn(action.message, action.started), answer;
    }

    /** One turn of `recv_text`'s loop, for a call that began at `from`. */
    method Turn(expired: bool, message: seq<byte>, started: bool, ghost from: seq<byte>, ghost answers: seq<Frame>)
      returns (t: Turned, ghost answer: seq<Frame>)
      requires Valid() && InPart(from, Unread(), message, started, answers)
      modifies this, socket
      ensures Valid() && FramesOf(sent) == FramesOf(old(sent)) + answer
      ensures t.Ended? && t.r.Message? ==> Receive(from, [], false) == Reply(Text(t.r.bytes), Unread(), answers + answer)
      ensures t.Ended? && t.r.Nothing? ==> InPart(from, Unread(), [], false, answers + answer)
      ensures t.GoesOn? ==> InPart(from, Unread(), t.message, t.started, answers + answer) && |Unread()| < |old(Unread())|
      ensures old(socket.Flowing()) ==> socket.Flowing()
      ensures old(socket.SendsSucceed()) ==> socket.SendsSucceed()
      ensures old(socket.Flowing() && socket.SendsSucceed()) && !expired ==>
                (Receive(from, [], false).outcome.Text? ==> t.GoesOn? || t.r.Message?)
      ensures (t, Coming(), socket.sends) == TurnOn(old(Coming()), old(socket.sends), expired, message, started)
    {
      hide ReadOn, ActOn;
      answer := [];
      assert answers + answer == answers && FramesOf(sent) + answer == FramesOf(sent);
      ghost var before := Unread();
      PartIsText(from, before, message, started, answers);
      if expired {
        return Ended(if started then Error else Nothing), answer;
      }
      var one := ReadOne();
      if !one.Whole? {
        return Ended(if one.Failed? || started then Error else Nothing), answer;
      }
      PartGrows(from, before, Unread(), message, started, answers, one.frame);
      t, answer := Act(Handle(one.frame, message, started), from, answers);
    }

    /** `recv_text`; `expired(i)` is the clock's verdict at the top of turn i. A message is exactly
        the one the stream holds, with its answers sent; nothing is lost by a call that returns
        nothing: it stops between frames with no message begun. */
    method RecvText(expired: nat -> bool) returns (r: Received, ghost answers: seq<Frame>)
      requires Valid()
      modifies this, socket
      ensures Valid() && FramesOf(sent) == FramesOf(old(sent)) + answers
      ensures r.Message? ==> Receive(old(Unread()), [], false) == Reply(Text(r.bytes), Unread(), answers)
      ensures r.Nothing? ==> AtBoundary(old(Unread()), Unread())
      ensures r.Nothing? ==>
                Receive(old(Unread()), [], false) == Receive(Unread(), [], false).After(answers)
      ensures old(socket.Flowing() && socket.SendsSucceed()) && (forall i: nat :: !expired(i)) ==>
                (Receive(old(Unread()), [], false).outcome.Text? ==> r.Message?)
      ensures Call(r, Coming(), socket.sends) == CallOn(old(Coming()), old(socket.sends), expired, 0, [], false)
    {
      hide TurnOn;
      ghost var call := CallOn(Coming(), socket.sends, expired, 0, [], false);
      var message: seq<byte>, started, turn := [], false, 0;
      ghost var from := Unread();
      ghost var earlier := FramesOf(sent);
      answers := [];
      BeginPart(from);
      while true
        invariant Valid() && FramesOf(sent) == earlier + answers
        invariant InPart(from, Unread(), message, started, answers)
        invariant CallOn(Coming(), socket.sends, expired, turn, message, started) == call
        invariant old(socket.Flowing()) ==> socket.Flowing()
        invariant old(socket.SendsSucceed()) ==> socket.SendsSucceed()
        decreases |Unread()|
      {
        var t, answer := Turn(expired(turn), message, started, from, answers);
        Regroup(earlier, answers, answer);
        answers := answers + answer;
        if t.Ended? {
          return t.r, answers;
        }
        message, started, turn := t.message, t.started, turn + 1;
      }
    }
  }

  /** One more receive, with fewer bytes in the buffer than are asked for. */
  lemma {:induction false} Receiving(buffer: seq<byte>, e: Event, before: seq<Item>, after: seq<Item>, count: nat)
    requires |buffer| < count && Delivers(e, before, after)
    ensures e.Stall? ==> Take(AsItems(buffer) + before, count) == (TimedOut, AsItems(buffer) + after)
    ensures e.Fault? || e == Data([]) ==> Take(AsItems(buffer) + before, count) == (Lost, AsItems(buffer) + after)
    ensures e.Data? && e.bytes != [] ==> AsItems(buffer + e.bytes) + after == AsItems(buffer) + before
  {
    hide Take;
    if e.Data? && e.bytes != [] {
      Regroup(AsItems(buffer), AsItems(e.bytes), after);
      AsItemsConcat(buffer, e.bytes);
    } else if before == [] {
      TakeRunsOut(buffer, count);
      assert AsItems(buffer) + [] == AsItems(buffer);
    } else {
      TakeStops(buffer, before[0], after, count);
    }
  }

  lemma {:induction false} TakeFromBuffer(data: seq<byte>, left: seq<byte>, after: seq<Item>)
    ensures Take(AsItems(data + left) + after, |data|) == (Exactly(data), AsItems(left) + after)
  {
    hide Take;
    TakeEnough(data, AsItems(left) + after);
    Regroup(AsItems(data), AsItems(left), after);
    AsItemsConcat(data, left);
  }

  lemma {:induction false} FrameFits(s: seq<byte>, f: Frame)
    requires ReadFrame(s).Got? && ReadFrame(s).frame == f
    ensures |f.payload| < Pow256(8)
  {
    assert Pow256(8) > MAX_MESSAGE_BYTES by { assert Pow256(4) == 4294967296; }
  }

  /** A call that began at `from` and has handled some frames, giving `answers`, is at `s`. */
  ghost predicate InPart(from: seq<byte>, s: seq<byte>, message: seq<byte>, started: bool, answers: seq<Frame>) {
    Receive(from, [], false) == Receive(s, message, started).After(answers)
    && AtBoundary(from, s) && (!started ==> message == [])
  }

  lemma {:induction false} BeginPart(from: seq<byte>)
    ensures InPart(from, from, [], false, [])
  {
    assert Receive(from, [], false).After([]) == Receive(from, [], false);
  }

  lemma {:induction false} PartIsText(from: seq<byte>, s: seq<byte>, message: seq<byte>, started: bool, answers: seq<Frame>)
    requires InPart(from, s, message, started, answers)
    ensures Receive(from, [], false).outcome.Text? ==> ReadFrame(s).Got?
  {
  }

  /** The same after one more frame, if its answer goes out. */
  ghost predicate Grown(from: seq<byte>, rest: seq<byte>, a: Action, answers: seq<Frame>) {
    |a.answer| <= 1 && (forall f :: f in a.answer ==> f.fin && |f.payload| < Pow256(8))
    && if a.Stop? then Receive(from, [], false) == Reply(a.outcome, rest, answers + a.answer)
       else InPart(from, rest, a.message, a.started, answers + a.answer)
  }

  /** One frame handled: its answer joins the others, and the rest is still to come. */
  lemma {:induction false} PartGrows(from: seq<byte>, s: seq<byte>, rest: seq<byte>, message: seq<byte>, started: bool,
                  answers: seq<Frame>, f: Frame)
    requires InPart(from, s, message, started, answers) && ReadFrame(s) == Got(f, rest)
    ensures Grown(from, rest, Handle(f, message, started), answers)
  {
    BoundaryExtends(from, s, rest);
    FrameFits(s, f);
    HandleFits(f, message, started);
    ReceiveResumes(s, f, rest, message, started);
    ResumeGrows(from, rest, Handle(f, message, started), answers);
  }

  lemma {:induction false} HandleFits(f: Frame, message: seq<byte>, started: bool)
    requires |f.payload| < Pow256(8) && (!started ==> message == [])
    ensures var a := Handle(f, message, started);
            |a.answer| <= 1 && (forall g :: g in a.answer ==> g.fin && |g.payload| < Pow256(8))
            && (a.Continue? && !a.started ==> a.message == [])
  {
  }

  lemma {:induction false} ReceiveResumes(s: seq<byte>, f: Frame, rest: seq<byte>, message: seq<byte>, started: bool)
    requires ReadFrame(s) == Got(f, rest)
    ensures Receive(s, message, started) == Resume(Handle(f, message, started), rest)
  {
  }

  lemma {:induction false} ResumeGrows(from: seq<byte>, rest: seq<byte>, a: Action, answers: seq<Frame>)
    requires Receive(from, [], false) == Resume(a, rest).After(answers) && AtBoundary(from, rest)
    requires |a.answer| <= 1 && (forall f :: f in a.answer ==> f.fin && |f.payload| < Pow256(8))
    requires a.Continue? && !a.started ==> a.message == []
    ensures Grown(from, rest, a, answers)
  {
    if a.Continue? {
      Regroup(answers, a.answer, Receive(rest, a.message, a.started).answers);
    }
  }

  lemma {:induction false} BoundaryExtends(from: seq<byte>, mid: seq<byte>, to: seq<byte>)
    requires AtBoundary(from, mid) && ReadFrame(mid).Got? && ReadFrame(mid).rest == to
    ensures AtBoundary(from, to)
    decreases |from|
  {
    if from != mid { BoundaryExtends(ReadFrame(from).rest, mid, to); }
  }

  datatype AllRead = Refused | Frames(frames: seq<Frame>)

  /** A standard peer reading the client's bytes to the end. */
  function PeerReadAll(s: seq<byte>): AllRead
    decreases |s|
  {
    if s == [] then Frames([])
    else
      match PeerRead(s)
      case PeerRefuses => Refused
      case PeerGets(f, rest) =>
        if |rest| >= |s| then Refused
        else
          match PeerReadAll(rest)
          case Refused => Refused
          case Frames(more) => Frames([f] + more)
  }

  predicate Readable(sent: Sent) {
    Small(sent)
    && forall i :: 0 <= i < |sent| ==> sent[i].end.Goes? && sent[i].frame.fin && |sent[i].frame.payload| < Pow2(63)
  }

  /** The peer reads back, in order, exactly the frames the client meant to send. */
  lemma {:induction false} PeerReadsEveryFrame(sent: Sent)
    requires Readable(sent)
    ensures PeerReadAll(Wire(sent)) == Frames(FramesOf(sent))
  {
    hide PeerRead, LengthField, Masked;
    if sent != [] {
      hide Wire, FramesOf;
      var (a, after) := (sent[0], Wire(sent[1..]));
      WireFromFront(sent);
      PeerRecovers(a.frame.opcode, a.frame.payload, a.mask, after);
      PeerReadsEveryFrame(sent[1..]);
      FramesFromFront(sent);
    }
  }

  /** Whatever fails later, and however many bytes of it got out, the frames before it are read. */
  lemma {:induction false} PeerReadsUpToFailure(sent: Sent, k: nat)
    requires Small(sent) && k <= |sent| && Readable(sent[..k])
    ensures PeerReadAll(Wire(sent[..k])) == Frames(FramesOf(sent[..k])) && Wire(sent[..k]) <= Wire(sent)
    decreases |sent|
  {
    hide PeerReadAll, ClientFrame;
    var n := |sent| - 1;
    if k == |sent| {
      assert sent[..k] == sent;
      PeerReadsEveryFrame(sent);
    } else {
      assert sent[..n][..k] == sent[..k];
      PeerReadsUpToFailure(sent[..n], k);
    }
  }

  lemma {:induction false} WireToBack(sent: Sent)
    requires Small(sent) && sent != []
    ensures Wire(sent) == Wire(sent[..|sent| - 1]) + sent[|sent| - 1].OnWire()
  {
  }

  lemma {:induction false} WireFromFront(sent: Sent)
    requires Small(sent) && sent != []
    ensures Wire(sent) == sent[0].OnWire() + Wire(sent[1..])
  {
    hide ClientFrame, Outgoing;
    var n := |sent| - 1;
    if n == 0 {
      assert sent[..0] == [] == sent[1..];
    } else {
      var tail := sent[1..];
      WireFromFront(sent[..n]);
      assert sent[..n][1..] == tail[..n - 1] && tail[n - 1] == sent[n];
      WireToBack(sent);
      WireToBack(tail);
      Regroup(sent[0].OnWire(), Wire(tail[..n - 1]), sent[n].OnWire());
    }
  }

  lemma {:induction false} FramesFromFront(sent: Sent)
    requires sent != [] && sent[0].end.Goes?
    ensures FramesOf(sent) == [sent[0].frame] + FramesOf(sent[1..])
  {
    var n := |sent| - 1;
    if n > 0 {
      FramesFromFront(sent[..n]);
      assert sent[..n][1..] == sent[1..][..n - 1];
    }
  }
}
