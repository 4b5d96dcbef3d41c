/**
 Reading WebSocket frames (`_recv_exact` to `recv_text` in ws_lite.py) from what is coming on a socket:
 bytes with pauses and a cut among them. Unlike MQTT's, this reader keeps the bytes it has when a
 deadline passes.
*/
module WebSocketReading {
  import opened Wrappers
  import opened Bytes
  import opened Net
  import opened WebSocketWire

  datatype Taken = Exactly(data: seq<byte>) | TimedOut | Lost
  datatype FrameResult = Whole(frame: Frame) | Late | Failed
  datatype Received = Message(bytes: seq<byte>) | Nothing | Closed | Error
  datatype Turned = Ended(r: Received) | GoesOn(message: seq<byte>, started: bool)

  // ------------------------------------------------------------------ some bytes

  /** `_recv_exact`: a pause or a cut in the way is used up, the bytes before it are not. */
  function Take(items: seq<Item>, count: nat): (r: (Taken, seq<Item>))
    ensures r.0.Exactly? ==> |r.0.data| == count && |r.1| + count == |items|
    ensures |r.1| <= |items|
  {
    if count == 0 then (Exactly([]), items)
    else if items == [] then (TimedOut, [])
    else
      match items[0]
      case Byte(b) =>
        var (r, left) := Take(items[1..], count - 1);
        if r.Exactly? then (Exactly([b] + r.data), left) else (r, [items[0]] + left)
      case Pause => (TimedOut, items[1..])
      case Cut => (Lost, items[1..])
  }

  lemma {:induction false} TakeEnough(bytes: seq<byte>, rest: seq<Item>)
    ensures Take(AsItems(bytes) + rest, |bytes|) == (Exactly(bytes), rest)
  {
    var items := AsItems(bytes) + rest;
    if bytes == [] {
      assert items == rest;
    } else {
      assert items[1..] == AsItems(bytes[1..]) + rest;
      TakeEnough(bytes[1..], rest);
      assert [bytes[0]] + bytes[1..] == bytes;
    }
  }

  /** Stopped short: the pause or cut is gone, the bytes before it are not. */
  lemma {:induction false} TakeStops(bytes: seq<byte>, stop: Item, rest: seq<Item>, count: nat)
    requires |bytes| < count && !stop.Byte?
    ensures Take(AsItems(bytes) + ([stop] + rest), count) == (if stop.Pause? then TimedOut else Lost, AsItems(bytes) + rest)
  {
    var items := AsItems(bytes) + ([stop] + rest);
    if bytes == [] {
      assert items[1..] == rest == AsItems(bytes) + rest;
    } else {
      assert items[1..] == AsItems(bytes[1..]) + ([stop] + rest);
      TakeStops(bytes[1..], stop, rest, count - 1);
      assert [items[0]] + (AsItems(bytes[1..]) + rest) == AsItems(bytes) + rest;
    }
  }

  lemma {:induction false} TakeRunsOut(bytes: seq<byte>, count: nat)
    requires |bytes| < count
    ensures Take(AsItems(bytes), count) == (TimedOut, AsItems(bytes))
  {
    if bytes != [] {
      assert AsItems(bytes)[1..] == AsItems(bytes[1..]);
      TakeRunsOut(bytes[1..], count - 1);
      assert [AsItems(bytes)[0]] + AsItems(bytes[1..]) == AsItems(bytes);
    }
  }

  // ------------------------------------------------------------------ a frame

  /** The extended length field, if the second byte calls for one. */
  function LengthOn(second: byte, items: seq<Item>): (r: (Option<nat>, seq<Item>))
    ensures |r.1| <= |items|
  {
    if second < 126 then (Some(second), items)
    else
      var (field, left) := Take(items, if second == 126 then 2 else 8);
      (if field.Exactly? then Some(FromBigEndian(field.data)) else None, left)
  }

  /** `_read_rest`. */
  function RestOn(first: byte, second: byte, items: seq<Item>): (r: (FrameResult, seq<Item>))
    ensures |r.1| <= |items|
  {
    if first / 16 % 8 != 0 || second >= 128 then (Failed, items)
    else
      var (length, left) := LengthOn(second, items);
      if length.None? then (Failed, left)
      else if length.value > MAX_MESSAGE_BYTES || (first % 16 >= CLOSE && (first < 128 || length.value > 125)) then (Failed, left)
      else
        var (payload, end) := Take(left, length.value);
        (if payload.Exactly? then Whole(Frame(first >= 128, first % 16, payload.data)) else Failed, end)
  }

  /** `_read_frame`. */
  function ReadOn(items: seq<Item>): (r: (FrameResult, seq<Item>))
    ensures r.0.Whole? ==> |r.1| < |items|
  {
    var (header, left) := Take(items, 2);
    if header.Exactly? then RestOn(header.data[0], header.data[1], left)
    else (if header.TimedOut? then Late else Failed, left)
  }

  // ------------------------------------------------------------------ recv_text

  function SendOn(sends: seq<Sending>): (bool, seq<Sending>) {
    (NextSend(sends).Goes?, if sends == [] then [] else sends[1..])
  }

  /** Send the answer a frame calls for, then end or go on. */
  function ActOn(action: Action, sends: seq<Sending>): (Turned, seq<Sending>) {
    var (ok, left) := if |action.answer| == 1 then SendOn(sends) else (true, sends);
    (if action.Stop? && action.outcome.PeerClosed? then Ended(Closed)
     else if !ok then Ended(Error)
     else if action.Stop? then Ended(if action.outcome.Text? then Message(action.outcome.message) else Error)
     else GoesOn(action.message, action.started),
     left)
  }

  /** One turn of the loop. */
  function TurnOn(items: seq<Item>, sends: seq<Sending>, expired: bool, message: seq<byte>, started: bool)
    : (r: (Turned, seq<Item>, seq<Sending>))
    ensures r.0.GoesOn? ==> |r.1| < |items|
  {
    if expired then (Ended(if started then Error else Nothing), items, sends)
    else
      var (one, left) := ReadOn(items);
      if !one.Whole? then (Ended(if one.Failed? || started then Error else Nothing), left, sends)
      else
        var (t, sends') := ActOn(Handle(one.frame, message, started), sends);
        (t, left, sends')
  }

  /** What a call leaves: its result, what is still coming and how later sends will end. */
  datatype Call = Call(r: Received, items: seq<Item>, sends: seq<Sending>)

  /** `recv_text` from turn number `turn` on. */
  function CallOn(items: seq<Item>, sends: seq<Sending>, expired: nat -> bool, turn: nat, message: seq<byte>, started: bool): Call
    decreases |items|
  {
    var (t, left, sends') := TurnOn(items, sends, expired(turn), message, started);
    match t
    case Ended(r) => Call(r, left, sends')
    case GoesOn(message', started') => CallOn(left, sends', expired, turn + 1, message', started')
  }
}
