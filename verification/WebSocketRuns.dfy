/**
 One `recv_text` after another (ws_lite.py, as slack_bridge.py calls it) on the frames a server sent,
 with stalls among them.
*/
module WebSocketRuns {
  import opened Wrappers
  import opened Bytes
  import opened Net
  import opened WebSocketWire
  import opened WebSocketReading

  // ------------------------------------------------------------------ one frame with a stall in it or none

  lemma {:induction false} FrameItems(first: byte, field: seq<byte>, payload: seq<byte>, rest: seq<Item>)
    requires field != []
    ensures AsItems([first] + field + payload) + rest
            == AsItems([first, field[0]]) + (AsItems(field[1..]) + (AsItems(payload) + rest))
  {
    assert [first] + field + payload == [first, field[0]] + (field[1..] + payload);
    AsItemsConcat([first, field[0]], field[1..] + payload);
    AsItemsConcat(field[1..], payload);
    Regroup(AsItems([first, field[0]]), AsItems(field[1..] + payload), rest);
    Regroup(AsItems(field[1..]), AsItems(payload), rest);
  }

  lemma {:induction false} FieldIsRead(n: nat, form: Form, rest: seq<Item>)
    requires Fits(n, form)
    ensures var field := LengthField(n, form, false);
            field != [] && field[0] < 128 && LengthOn(field[0], AsItems(field[1..]) + rest) == (Some(n), rest)
  {
    hide Take;
    LengthRoundTrip(n, form, false, []);
    var field := LengthField(n, form, false);
    if form.Short? {
      assert AsItems(field[1..]) + rest == rest;
    } else {
      var k := if form.Medium? then 2 else 8;
      assert field[1..] == BigEndian(n, k);
      BigEndianRoundTrip(n, k);
      TakeEnough(field[1..], rest);
    }
  }

  /** A frame that is all there is read, and the rest left alone. */
  lemma {:induction false} WholeFrameIsRead(f: Frame, form: Form, rest: seq<Item>)
    requires Fits(|f.payload|, form) && Acceptable(f)
    ensures ReadOn(AsItems(ServerFrame(f, form)) + rest) == (Whole(f), rest)
  {
    hide Take, LengthOn, LengthField, AsItems, ReadOn;
    var field := LengthField(|f.payload|, form, false);
    var first := FirstByte(f.fin, f.opcode);
    FieldIsRead(|f.payload|, form, AsItems(f.payload) + rest);
    FrameItems(first, field, f.payload, rest);
    TakeEnough([first, field[0]], AsItems(field[1..]) + (AsItems(f.payload) + rest));
    TakeEnough(f.payload, rest);
    FrameParts(f, field[0], AsItems(ServerFrame(f, form)) + rest, AsItems(field[1..]) + (AsItems(f.payload) + rest),
               AsItems(f.payload) + rest, rest);
  }

  /** The client's own steps, once header, length and payload are known to be there. */
  lemma {:induction false} FrameParts(f: Frame, second: byte, items: seq<Item>, left: seq<Item>, body: seq<Item>, rest: seq<Item>)
    requires Acceptable(f) && second < 128
    requires Take(items, 2) == (Exactly([FirstByte(f.fin, f.opcode), second]), left)
    requires LengthOn(second, left) == (Some(|f.payload|), body) && Take(body, |f.payload|) == (Exactly(f.payload), rest)
    ensures ReadOn(items) == (Whole(f), rest)
  {
    hide Take, LengthOn;
  }

  /** A stall before the second byte is harmless; any later one in the frame ends the connection. */
  lemma {:induction false} StallInFrame(f: Frame, form: Form, t: nat, rest: seq<Item>)
    requires Fits(|f.payload|, form) && Acceptable(f) && t < |ServerFrame(f, form)|
    ensures var bytes := ServerFrame(f, form);
            var (r, left) := ReadOn(AsItems(bytes[..t]) + ([Pause] + rest));
            if t < 2 then r == Late && left == AsItems(bytes[..t]) + rest else r == Failed
  {
    hide Take, LengthOn;
    var bytes := ServerFrame(f, form);
    if t < 2 {
      TakeStops(bytes[..t], Pause, rest, 2);
    } else {
      StallAfterHeader(f, form, t, rest);
    }
  }

  lemma {:induction false} StallAfterHeader(f: Frame, form: Form, t: nat, rest: seq<Item>)
    requires Fits(|f.payload|, form) && Acceptable(f) && 2 <= t < |ServerFrame(f, form)|
    ensures ReadOn(AsItems(ServerFrame(f, form)[..t]) + ([Pause] + rest)).0 == Failed
  {
    hide Take;
    var (field, first, stop) := (LengthField(|f.payload|, form, false), FirstByte(f.fin, f.opcode), [Pause] + rest);
    FieldIsRead(|f.payload|, form, []);
    if t < 1 + |field| {
      assert ServerFrame(f, form)[..t] == [first] + field[..t - 1] + [];
      FrameItems(first, field[..t - 1], [], stop);
      assert AsItems([]) + stop == stop && field[..t - 1][1..] == field[1..t - 1];
      TakeEnough([first, field[0]], AsItems(field[1..t - 1]) + stop);
      TakeStops(field[1..t - 1], Pause, rest, if field[0] == 126 then 2 else 8);
    } else {
      var part := f.payload[..t - 1 - |field|];
      assert ServerFrame(f, form)[..t] == [first] + field + part;
      FrameItems(first, field, part, stop);
      FieldIsRead(|f.payload|, form, AsItems(part) + stop);
      TakeEnough([first, field[0]], AsItems(field[1..]) + (AsItems(part) + stop));
      TakeStops(part, Pause, rest, |f.payload|);
    }
  }

  // ------------------------------------------------------------------ what the server sends

  /** A message as the server sends it: its frames, pings and pongs included, and their length forms. */
  datatype Letter = Letter(frames: seq<Frame>, forms: seq<Form>)
  {
    predicate Proper() { AllFit(frames, forms) && Legal(frames, false) && |Content(frames)| <= MAX_MESSAGE_BYTES }
  }

  predicate AllProper(letters: seq<Letter>) { letters == [] || (letters[0].Proper() && AllProper(letters[1..])) }

  function Contents(letters: seq<Letter>): seq<seq<byte>> {
    if letters == [] then [] else [Content(letters[0].frames)] + Contents(letters[1..])
  }

  /** A frame on its way; `inside` when a message has begun before it. */
  datatype Piece = Piece(frame: Frame, form: Form, inside: bool)
  {
    predicate Readable() { Fits(|frame.payload|, form) && Acceptable(frame) }
  }

  function Pieces(frames: seq<Frame>, forms: seq<Form>, inside: bool): seq<Piece>
    requires |frames| == |forms|
  {
    if frames == [] then []
    else [Piece(frames[0], forms[0], inside)] + Pieces(frames[1..], forms[1..], inside || !Control(frames[0]))
  }

  function AllPieces(letters: seq<Letter>): seq<Piece>
    requires AllProper(letters)
  {
    if letters == [] then [] else Pieces(letters[0].frames, letters[0].forms, false) + AllPieces(letters[1..])
  }

  predicate Outside(pieces: seq<Piece>) { pieces == [] || !pieces[0].inside }

  /** The items are these frames in order, and every pause is before the first or the second byte of a
      frame, with no message begun. Then the stream goes silent. */
  predicate Framed(items: seq<Item>, pieces: seq<Piece>)
    decreases |items|
  {
    if items != [] && items[0].Pause? then Outside(pieces) && Framed(items[1..], pieces)
    else if |items| > 1 && items[1].Pause? then Outside(pieces) && Framed([items[0]] + items[2..], pieces)
    else if pieces == [] then items == []
    else
      pieces[0].Readable()
      && (var bytes := ServerFrame(pieces[0].frame, pieces[0].form);
          AsItems(bytes) <= items && Framed(items[|bytes|..], pieces[1..]))
  }

  /** Items whose next read meets a pause, or nothing at all. */
  predicate Waits(items: seq<Item>) { items == [] || items[0].Pause? || (|items| > 1 && items[1].Pause?) }

  function Pauses(items: seq<Item>): nat {
    if items == [] then 0 else (if items[0].Pause? then 1 else 0) + Pauses(items[1..])
  }

  lemma {:induction false} PausesConcat(a: seq<Item>, b: seq<Item>)
    ensures Pauses(a + b) == Pauses(a) + Pauses(b)
  {
    if a == [] {
      assert a + b == b;
    } else {
      assert (a + b)[1..] == a[1..] + b;
      PausesConcat(a[1..], b);
    }
  }

  /** A read that waits uses up one pause, if there is one, and loses nothing. */
  lemma {:induction false} WaitingIsHarmless(items: seq<Item>, pieces: seq<Piece>)
    requires Framed(items, pieces) && Waits(items)
    ensures var (r, left) := ReadOn(items);
            r == Late && Framed(left, pieces) && Outside(pieces)
            && Pauses(left) == (if items == [] then 0 else Pauses(items) - 1)
  {
    hide ReadOn;
    if items == [] {
      NothingIsRead();
    } else if items[0].Pause? {
      PauseFirst(items[1..]);
      assert items == [Pause] + items[1..];
    } else {
      FirstIsByte(items, pieces);
      PauseSecond(items[0].value, items[2..]);
      assert items == [items[0]] + ([Pause] + items[2..]);
    }
  }

  lemma {:induction false} NothingIsRead()
    ensures ReadOn([]) == (Late, [])
  {
  }

  lemma {:induction false} PauseFirst(rest: seq<Item>)
    ensures ReadOn([Pause] + rest) == (Late, rest) && Pauses([Pause] + rest) == 1 + Pauses(rest)
  {
    hide RestOn;
    TakeStops([], Pause, rest, 2);
    assert AsItems([]) + ([Pause] + rest) == [Pause] + rest && AsItems([]) + rest == rest;
    assert ([Pause] + rest)[1..] == rest;
  }

  lemma {:induction false} PauseSecond(b: byte, rest: seq<Item>)
    ensures ReadOn([Byte(b)] + ([Pause] + rest)) == (Late, [Byte(b)] + rest)
    ensures Pauses([Byte(b)] + ([Pause] + rest)) == 1 + Pauses([Byte(b)] + rest)
  {
    hide RestOn;
    assert AsItems([b]) == [Byte(b)];
    TakeStops([b], Pause, rest, 2);
    PausesConcat([Byte(b)], rest);
    PausesConcat([Byte(b)], [Pause] + rest);
    assert ([Pause] + rest)[1..] == rest;
  }

  lemma {:induction false} FirstIsByte(items: seq<Item>, pieces: seq<Piece>)
    requires Framed(items, pieces) && items != [] && !items[0].Pause?
    ensures items[0].Byte?
    decreases |items|
  {
    if |items| > 1 && items[1].Pause? {
      FirstIsByte([items[0]] + items[2..], pieces);
    } else {
      var bytes := ServerFrame(pieces[0].frame, pieces[0].form);
      assert items[0] == AsItems(bytes)[0];
    }
  }

  /** A read that does not wait takes the next frame. */
  lemma {:induction false} NextFrameIsRead(items: seq<Item>, pieces: seq<Piece>)
    requires Framed(items, pieces) && !Waits(items)
    ensures pieces != [] && pieces[0].Readable()
    ensures var (r, left) := ReadOn(items); r == Whole(pieces[0].frame) && Framed(left, pieces[1..]) && Pauses(left) == Pauses(items)
  {
    hide ReadOn;
    var bytes := ServerFrame(pieces[0].frame, pieces[0].form);
    var rest := items[|bytes|..];
    assert items == AsItems(bytes) + rest;
    WholeFrameIsRead(pieces[0].frame, pieces[0].form, rest);
    PausesConcat(AsItems(bytes), rest);
    NoPauses(bytes);
  }

  lemma {:induction false} NoPauses(bytes: seq<byte>)
    ensures Pauses(AsItems(bytes)) == 0
  {
    if bytes != [] {
      assert AsItems(bytes)[1..] == AsItems(bytes[1..]);
      NoPauses(bytes[1..]);
    }
  }

  // ------------------------------------------------------------------ one call

  ghost predicate AllSend(sends: seq<Sending>) { forall s :: s in sends ==> s.Goes? }

  /** A deadline can pass only before the call reads its first frame. */
  ghost predicate Patient(expired: nat -> bool) { forall i: nat :: i > 0 ==> !expired(i) }

  /** Where a call is: what is left of the message it is reading, and the messages behind it. */
  datatype Place = Place(message: seq<byte>, started: bool, frames: seq<Frame>, forms: seq<Form>, later: seq<Letter>)
  {
    predicate Sound() {
      AllFit(frames, forms) && Legal(frames, started) && (!started ==> message == [])
      && |message| + |Content(frames)| <= MAX_MESSAGE_BYTES && AllProper(later)
    }

    function Left(): seq<Piece>
      requires Sound()
    {
      Pieces(frames, forms, started) + AllPieces(later)
    }

    /** What is left of the message as one of its own, if it has not begun. */
    function Letters(): seq<Letter> { [Letter(frames, forms)] + later }
  }

  /** After one more frame of a message that goes on. */
  function NextPlace(p: Place): Place
    requires p.Sound()
  {
    var f := p.frames[0];
    if Control(f) then p.(frames := p.frames[1..], forms := p.forms[1..])
    else Place(p.message + f.payload, true, p.frames[1..], p.forms[1..], p.later)
  }

  predicate IsLast(p: Place)
    requires p.Sound()
  {
    !Control(p.frames[0]) && p.frames[0].fin
  }

  lemma {:induction false} LeftIs(p: Place)
    requires p.Sound()
    ensures var f := p.frames[0];
            p.Left()[0] == Piece(f, p.forms[0], p.started)
            && p.Left()[1..] == (if IsLast(p) then AllPieces(p.later)
                                else Pieces(p.frames[1..], p.forms[1..], p.started || !Control(f)) + AllPieces(p.later))
  {
    var (f, more) := (p.frames[0], Pieces(p.frames[1..], p.forms[1..], p.started || !Control(p.frames[0])));
    assert p.Left() == [Piece(f, p.forms[0], p.started)] + (more + AllPieces(p.later));
    if IsLast(p) { assert more == [] && [] + AllPieces(p.later) == AllPieces(p.later); }
  }

  /** What `recv_text` makes of the next frame. */
  lemma {:induction false} NextIsHandled(p: Place)
    requires p.Sound()
    ensures var (f, action) := (p.frames[0], Handle(p.frames[0], p.message, p.started));
            if IsLast(p) then action == Stop(Text(p.message + Content(p.frames)), [])
            else action.Continue? && |action.answer| <= 1 && NextPlace(p).Sound()
                 && action.message == NextPlace(p).message && action.started == NextPlace(p).started
                 && NextPlace(p).Left() == p.Left()[1..]
                 && NextPlace(p).message + Content(NextPlace(p).frames) == p.message + Content(p.frames)
  {
    var f := p.frames[0];
    LeftIs(p);
    Regroup(p.message, f.payload, Content(p.frames[1..]));
    assert [] + Content(p.frames[1..]) == Content(p.frames[1..]);
    if IsLast(p) {
      assert p.frames[1..] == [] && Content([]) == [] && f.payload + [] == f.payload;
      assert !p.started ==> p.message + f.payload == f.payload;
    }
  }

  /** What a call on such a stream may come to: the message, or nothing with no message begun. */
  ghost predicate Good(call: Call, contents: seq<seq<byte>>, letters: seq<Letter>, pauses: nat) {
    AllSend(call.sends) && AllProper(letters) && Framed(call.items, AllPieces(letters)) && Pauses(call.items) <= pauses
    && match call.r
       case Message(m) => contents == [m] + Contents(letters)
       case Nothing => contents == Contents(letters)
       case _ => false
  }

  /** A call in the middle of the stream. */
  lemma {:induction false} CallInStep(items: seq<Item>, sends: seq<Sending>, expired: nat -> bool, turn: nat, p: Place)
    returns (letters: seq<Letter>)
    requires p.Sound() && Framed(items, p.Left()) && AllSend(sends) && Patient(expired) && (p.started ==> turn > 0)
    ensures var call := CallOn(items, sends, expired, turn, p.message, p.started);
            Good(call, [p.message + Content(p.frames)] + Contents(p.later), letters, Pauses(items))
            && (call.r.Nothing? && (turn > 0 || !expired(0)) ==> Pauses(call.items) < Pauses(items))
    decreases |items|
  {
    hide ReadOn, Handle, Framed;
    LeftIs(p);
    if expired(turn) || Waits(items) {
      letters := p.Letters();
      CallWaits(items, sends, expired, turn, p);
    } else {
      NextFrameIsRead(items, p.Left());
      NextIsHandled(p);
      var left := ReadOn(items).1;
      if IsLast(p) {
        letters := p.later;
      } else {
        var sends' := AnswerGoes(sends, Handle(p.frames[0], p.message, p.started));
        letters := CallInStep(left, sends', expired, turn + 1, NextPlace(p));
      }
    }
  }

  lemma {:induction false} AnswerGoes(sends: seq<Sending>, action: Action) returns (left: seq<Sending>)
    requires AllSend(sends) && action.Continue? && |action.answer| <= 1
    ensures ActOn(action, sends) == (GoesOn(action.message, action.started), left) && AllSend(left)
  {
    left := ActOn(action, sends).1;
  }

  lemma {:induction false} CallWaits(items: seq<Item>, sends: seq<Sending>, expired: nat -> bool, turn: nat, p: Place)
    requires p.Sound() && Framed(items, p.Left()) && AllSend(sends) && Patient(expired) && (p.started ==> turn > 0)
    requires expired(turn) || Waits(items)
    ensures var call := CallOn(items, sends, expired, turn, p.message, p.started);
            call.r == Nothing
            && Good(call, [p.message + Content(p.frames)] + Contents(p.later), p.Letters(), Pauses(items))
            && (turn > 0 || !expired(0) ==> Pauses(call.items) < Pauses(items))
  {
    hide ReadOn, Handle;
    LeftIs(p);
    if !expired(turn) {
      WaitingIsHarmless(items, p.Left());
      assert items != [];
    }
    LettersAre(p);
  }

  lemma {:induction false} LettersAre(p: Place)
    requires p.Sound() && !p.started
    ensures AllProper(p.Letters()) && AllPieces(p.Letters()) == p.Left()
    ensures Contents(p.Letters()) == [p.message + Content(p.frames)] + Contents(p.later)
  {
    assert p.Letters()[1..] == p.later && [] + Content(p.frames) == Content(p.frames);
  }

  /** A whole call, between two messages. */
  lemma {:induction false} CallDelivers(items: seq<Item>, sends: seq<Sending>, expired: nat -> bool, letters: seq<Letter>)
    returns (left: seq<Letter>)
    requires AllProper(letters) && Framed(items, AllPieces(letters)) && AllSend(sends) && Patient(expired)
    ensures var call := CallOn(items, sends, expired, 0, [], false);
            Good(call, Contents(letters), left, Pauses(items))
            && (call.r.Nothing? && !expired(0) && letters != [] ==> Pauses(call.items) < Pauses(items))
  {
    hide ReadOn, Framed;
    if letters == [] {
      left := [];
      NothingComes(items, sends, expired);
    } else {
      var p := Place([], false, letters[0].frames, letters[0].forms, letters[1..]);
      assert [] + Content(p.frames) == Content(p.frames);
      left := CallInStep(items, sends, expired, 0, p);
    }
  }

  lemma {:induction false} NothingComes(items: seq<Item>, sends: seq<Sending>, expired: nat -> bool)
    requires Framed(items, []) && AllSend(sends)
    ensures Good(CallOn(items, sends, expired, 0, [], false), [], [], Pauses(items))
  {
    hide ReadOn;
    assert Waits(items);
    WaitingIsHarmless(items, []);
  }

  // ------------------------------------------------------------------ a whole run

  datatype Run = Run(results: seq<Received>, items: seq<Item>, sends: seq<Sending>)

  /** One call after another, until one raises. */
  function Calls(items: seq<Item>, sends: seq<Sending>, deadlines: seq<nat -> bool>): Run
    decreases |deadlines|
  {
    if deadlines == [] then Run([], items, sends)
    else
      var call := CallOn(items, sends, deadlines[0], 0, [], false);
      if call.r.Error? || call.r.Closed? then Run([call.r], call.items, call.sends)
      else
        var more := Calls(call.items, call.sends, deadlines[1..]);
        more.(results := [call.r] + more.results)
  }

  function Texts(results: seq<Received>): seq<seq<byte>> {
    if results == [] then [] else (if results[0].Message? then [results[0].bytes] else []) + Texts(results[1..])
  }

  predicate Quiet(results: seq<Received>) { forall r :: r in results ==> r.Message? || r.Nothing? }

  /** However often it is called, on messages the server sent with stalls only before or inside frame
      headers while no message has begun, `recv_text` returns those messages, each once and in order, with
      nothing but `None` in between; and with no deadline passing it returns all of them in as many calls
      as there are messages and stalls. */
  lemma {:induction false} RunDelivers(items: seq<Item>, sends: seq<Sending>, deadlines: seq<nat -> bool>, letters: seq<Letter>)
    returns (left: seq<Letter>)
    requires AllProper(letters) && Framed(items, AllPieces(letters)) && AllSend(sends)
    requires forall i :: 0 <= i < |deadlines| ==> Patient(deadlines[i])
    ensures var run := Calls(items, sends, deadlines);
            |run.results| == |deadlines| && Quiet(run.results)
            && AllProper(left) && Framed(run.items, AllPieces(left)) && Contents(letters) == Texts(run.results) + Contents(left)
    ensures (forall i :: 0 <= i < |deadlines| ==> !deadlines[i](0)) && |deadlines| >= |letters| + Pauses(items) ==> left == []
    decreases |deadlines|
  {
    hide CallOn, Framed, AllPieces, AllProper, Contents, Pauses;
    left := letters;
    if deadlines == [] {
      assert [] + Contents(letters) == Contents(letters);
    } else {
      var now := CallDelivers(items, sends, deadlines[0], letters);
      var call := CallOn(items, sends, deadlines[0], 0, [], false);
      assert forall i :: 0 <= i < |deadlines[1..]| ==> deadlines[1..][i] == deadlines[i + 1];
      SameNumber(letters);
      SameNumber(now);
      left := RunDelivers(call.items, call.sends, deadlines[1..], now);
      SameNumber(left);
      var more := Calls(call.items, call.sends, deadlines[1..]);
      assert ([call.r] + more.results)[1..] == more.results;
      Regroup(if call.r.Message? then [call.r.bytes] else [], Texts(more.results), Contents(left));
      assert [] + Contents(now) == Contents(now);
    }
  }

  lemma {:induction false} SameNumber(letters: seq<Letter>)
    ensures |Contents(letters)| == |letters|
  {
    if letters != [] { SameNumber(letters[1..]); }
  }

  // ------------------------------------------------------------------ what ends a call otherwise

  /** Frames of a message under way are read one after another, and their pings answered. */
  lemma {:induction false} CallThrough(frames: seq<Frame>, forms: seq<Form>, rest: seq<Item>, sends: seq<Sending>,
                                       expired: nat -> bool, turn: nat, message: seq<byte>, started: bool)
    returns (sends': seq<Sending>)
    requires AllFit(frames, forms) && UnderWay(frames, started) && (!started ==> message == [])
    requires |message| + |Content(frames)| <= MAX_MESSAGE_BYTES && AllSend(sends)
    requires forall i: nat :: turn <= i < turn + |frames| ==> !expired(i)
    ensures AllSend(sends')
    ensures CallOn(AsItems(Encode(frames, forms)) + rest, sends, expired, turn, message, started)
            == CallOn(rest, sends', expired, turn + |frames|, message + Content(frames), started || HasData(frames))
    decreases |frames|
  {
    hide ReadOn, ServerFrame, Handle, AsItems;
    if frames == [] {
      sends' := sends;
      NoItems();
      assert [] + rest == rest && message + [] == message;
    } else {
      var (f, more) := (frames[0], AsItems(Encode(frames[1..], forms[1..])) + rest);
      AsItemsConcat(ServerFrame(f, forms[0]), Encode(frames[1..], forms[1..]));
      Regroup(AsItems(ServerFrame(f, forms[0])), AsItems(Encode(frames[1..], forms[1..])), rest);
      var after := OneFrame(f, forms[0], more, sends, expired, turn, message, started);
      DataLater(frames);
      Regroup(message, if Control(f) then [] else f.payload, Content(frames[1..]));
      assert message + [] == message;
      sends' := CallThrough(frames[1..], forms[1..], rest, after, expired, turn + 1,
                            if Control(f) then message else message + f.payload, started || !Control(f));
    }
  }

  lemma {:induction false} OneFrame(f: Frame, form: Form, more: seq<Item>, sends: seq<Sending>, expired: nat -> bool, turn: nat,
                                    message: seq<byte>, started: bool) returns (after: seq<Sending>)
    requires Fits(|f.payload|, form) && UnderWay([f], started) && (!started ==> message == [])
    requires |message| + |Content([f])| <= MAX_MESSAGE_BYTES && AllSend(sends) && !expired(turn)
    ensures AllSend(after)
    ensures CallOn(AsItems(ServerFrame(f, form)) + more, sends, expired, turn, message, started)
            == CallOn(more, after, expired, turn + 1, if Control(f) then message else message + f.payload, started || !Control(f))
  {
    hide ReadOn, ServerFrame, Handle, AsItems;
    WholeFrameIsRead(f, form, more);
    FrameGoesOn(f, message, started);
    assert [f][1..] == [] && Pongs([f]) == (if f.opcode == PING then [Frame(true, PONG, f.payload)] else []) + [];
    after := if f.opcode == PING then SendOn(sends).1 else sends;
  }

  /** A deadline that passes between frames ends the call: with nothing if no message had begun, as an error
      otherwise. What follows is not touched. */
  lemma {:induction false} DeadlineEndsTheCall(frames: seq<Frame>, forms: seq<Form>, rest: seq<Item>, sends: seq<Sending>,
                                               expired: nat -> bool)
    requires AllFit(frames, forms) && UnderWay(frames, false) && |Content(frames)| <= MAX_MESSAGE_BYTES && AllSend(sends)
    requires expired(|frames|) && forall i: nat :: i < |frames| ==> !expired(i)
    ensures var call := CallOn(AsItems(Encode(frames, forms)) + rest, sends, expired, 0, [], false);
            call.r == (if HasData(frames) then Error else Nothing) && call.items == rest
  {
    var sends' := CallThrough(frames, forms, rest, sends, expired, 0, [], false);
  }

  /** A close ends it as closed, and a frame that must not come next as an error. */
  lemma {:induction false} FrameEndsTheCall(frames: seq<Frame>, forms: seq<Form>, f: Frame, form: Form, rest: seq<Item>,
                                            sends: seq<Sending>, expired: nat -> bool)
    requires AllFit(frames, forms) && UnderWay(frames, false) && |Content(frames)| <= MAX_MESSAGE_BYTES && AllSend(sends)
    requires Fits(|f.payload|, form) && Acceptable(f) && (f.opcode == 8 || Misplaced(f, |Content(frames)|, HasData(frames)))
    requires forall i: nat :: i <= |frames| ==> !expired(i)
    ensures var call := CallOn(AsItems(Encode(frames, forms)) + (AsItems(ServerFrame(f, form)) + rest), sends, expired, 0, [], false);
            call.r == (if f.opcode == 8 then Closed else Error) && call.items == rest
  {
    hide ReadOn, ServerFrame;
    var after := AsItems(ServerFrame(f, form)) + rest;
    var sends' := CallThrough(frames, forms, after, sends, expired, 0, [], false);
    if !HasData(frames) { NoContent(frames); }
    assert [] + Content(frames) == Content(frames);
    WholeFrameIsRead(f, form, rest);
  }
}
