/**
 WebSocket frames on the wire (ws_lite.py): masking what the client sends, reading what the
 server sends, and reassembling a message. RFC 6455, sections 5.2 to 5.5.
*/
module WebSocketWire {
  import opened Bytes

  const MAX_MESSAGE_BYTES: nat := 1024 * 1024
  const CONT: nat := 0
  const TEXT: nat := 1
  const BINARY: nat := 2
  const CLOSE: nat := 8
  const PING: nat := 9
  const PONG: nat := 10

  type Opcode = o: nat | o < 16
  datatype Frame = Frame(fin: bool, opcode: Opcode, payload: seq<byte>)

  type Mask = m: seq<byte> | |m| == 4 witness [0, 0, 0, 0]

  // ------------------------------------------------------------------ masking

  function Pow2(k: nat): (p: nat)
    ensures p > 0
  {
    if k == 0 then 1 else 2 * Pow2(k - 1)
  }

  /** Exclusive or of the low k bits. */
  function Xor(a: nat, b: nat, k: nat): (x: nat)
    ensures x < Pow2(k)
  {
    if k == 0 then 0 else 2 * Xor(a / 2, b / 2, k - 1) + if a % 2 == b % 2 then 0 else 1
  }

  lemma {:induction false} XorUndoesXor(a: nat, b: nat, k: nat)
    requires a < Pow2(k)
    ensures Xor(Xor(a, b, k), b, k) == a
  {
    if k > 0 {
      XorUndoesXor(a / 2, b / 2, k - 1);
      var x := Xor(a / 2, b / 2, k - 1);
      assert Xor(a, b, k) / 2 == x && Xor(a, b, k) % 2 == if a % 2 == b % 2 then 0 else 1;
    }
  }

  function XorByte(a: byte, b: byte): byte {
    assert Pow2(8) == 256 by { assert Pow2(4) == 16; assert Pow2(8) == 2 * (2 * (2 * (2 * Pow2(4)))); }
    Xor(a, b, 8)
  }

  lemma {:induction false} XorByteUndoes(a: byte, b: byte)
    ensures XorByte(XorByte(a, b), b) == a
  {
    assert Pow2(8) == 256 by { assert Pow2(4) == 16; assert Pow2(8) == 2 * (2 * (2 * (2 * Pow2(4)))); }
    XorUndoesXor(a, b, 8);
  }

  /** Byte i of the payload meets byte i mod 4 of the mask. */
  function Masked(payload: seq<byte>, mask: Mask): (m: seq<byte>)
    ensures |m| == |payload|
  {
    seq(|payload|, i requires 0 <= i < |payload| => XorByte(payload[i], mask[i % 4]))
  }

  lemma {:induction false} UnmaskingUndoesMasking(payload: seq<byte>, mask: Mask)
    ensures Masked(Masked(payload, mask), mask) == payload
  {
    forall i | 0 <= i < |payload| ensures Masked(Masked(payload, mask), mask)[i] == payload[i] {
      XorByteUndoes(payload[i], mask[i % 4]);
    }
  }

  // ------------------------------------------------------------------ length field

  /** The three forms: in the second byte, in two more bytes, in eight more bytes. */
  datatype Form = Short | Medium | Long

  predicate Fits(n: nat, form: Form) {
    match form
    case Short => n < 126
    case Medium => n < Pow256(2)
    case Long => n < Pow256(8)
  }

  function LengthField(n: nat, form: Form, maskBit: bool): seq<byte>
    requires Fits(n, form)
  {
    var m: byte := if maskBit then 128 else 0;
    match form
    case Short => [n + m]
    case Medium => [126 + m] + BigEndian(n, 2)
    case Long => [127 + m] + BigEndian(n, 8)
  }

  /** The form `_send_frame` chooses, which is the shortest that fits. */
  function ChosenForm(n: nat): Form { if n < 126 then Short else if n < 65536 then Medium else Long }

  datatype Length = MoreLength | Length(n: nat, rest: seq<byte>)

  /** Read a length whose code (the second byte without its mask bit) is given. */
  function ReadLength(code: nat, s: seq<byte>): Length {
    if code < 126 then Length(code, s)
    else
      var k := if code == 126 then 2 else 8;
      if |s| < k then MoreLength else Length(FromBigEndian(s[..k]), s[k..])
  }

  lemma {:induction false} LengthRoundTrip(n: nat, form: Form, maskBit: bool, rest: seq<byte>)
    requires Fits(n, form)
    ensures var field := LengthField(n, form, maskBit);
            field != [] && (field[0] >= 128 <==> maskBit)
            && ReadLength(field[0] % 128, field[1..] + rest) == Length(n, rest)
            && (field[0] % 128 == 126 <==> form.Medium?) && (field[0] % 128 == 127 <==> form.Long?)
  {
    hide BigEndian, FromBigEndian, Pow256;
    if !form.Short? {
      var k := if form.Medium? then 2 else 8;
      BigEndianRoundTrip(n, k);
      var field := LengthField(n, form, maskBit);
      assert field[1..] == BigEndian(n, k);
      DropFront(field[1..] + rest, BigEndian(n, k), rest);
    } else {
      assert LengthField(n, form, maskBit)[1..] + rest == rest;
    }
  }

  // ------------------------------------------------------------------ what the client sends

  function FirstByte(fin: bool, opcode: Opcode): byte { (if fin then 128 else 0) + opcode }

  /** `_send_frame`: always final, always masked. */
  function ClientFrame(opcode: Opcode, payload: seq<byte>, mask: Mask): seq<byte>
    requires |payload| < Pow256(8)
  {
    ChosenFits(|payload|);
    [FirstByte(true, opcode)] + LengthField(|payload|, ChosenForm(|payload|), true) + mask + Masked(payload, mask)
  }

  lemma {:induction false} ChosenFits(n: nat)
    requires n < Pow256(8)
    ensures Fits(n, ChosenForm(n))
  {
    assert Pow256(2) == 65536;
  }

  datatype Peer = PeerRefuses | PeerGets(frame: Frame, rest: seq<byte>)

  /** A server of the standard: it refuses reserved bits, an unmasked frame, a length not in its
      shortest form and a length of more than 63 bits, and otherwise unmasks the payload. */
  function PeerRead(s: seq<byte>): Peer {
    if |s| < 2 || s[0] / 16 % 8 != 0 || s[1] < 128 then PeerRefuses
    else
      match ReadLength(s[1] % 128, s[2..])
      case MoreLength => PeerRefuses
      case Length(n, rest) =>
        var form := if s[1] % 128 == 126 then Medium else if s[1] % 128 == 127 then Long else Short;
        if form != ChosenForm(n) || n >= Pow2(63) || |rest| < 4 + n then PeerRefuses
        else PeerGets(Frame(s[0] >= 128, s[0] % 16, Masked(rest[4..4 + n], rest[..4])), rest[4 + n..])
  }

  lemma {:induction false} HeadPieces(first: byte, field: seq<byte>, mask: seq<byte>, body: seq<byte>, rest: seq<byte>)
    requires field != []
    ensures var s := [first] + field + mask + body + rest;
            |s| >= 2 && s[0] == first && s[1] == field[0] && s[2..] == field[1..] + (mask + body + rest)
  {
    var s := [first] + field + mask + body + rest;
    assert s == [first, field[0]] + (field[1..] + (mask + body + rest));
    DropFront(s, [first, field[0]], field[1..] + (mask + body + rest));
  }

  lemma {:induction false} BodyPieces(mask: seq<byte>, body: seq<byte>, rest: seq<byte>)
    ensures var s := mask + body + rest;
            s[..|mask|] == mask && s[|mask|..|mask| + |body|] == body && s[|mask| + |body|..] == rest
  {
  }

  /** The standard peer recovers opcode and payload from what the client wrote, for every payload,
      mask and length form, and stops at the frame's end. */
  lemma {:induction false} PeerRecovers(opcode: Opcode, payload: seq<byte>, mask: Mask, rest: seq<byte>)
    requires |payload| < Pow256(8) && |payload| < Pow2(63)
    ensures PeerRead(ClientFrame(opcode, payload, mask) + rest) == PeerGets(Frame(true, opcode, payload), rest)
  {
    hide PeerRead, ReadLength, Masked, ClientFrame;
    var s := ClientFrame(opcode, payload, mask) + rest;
    FrameParses(opcode, payload, mask, rest);
    UnmaskingUndoesMasking(payload, mask);
    PeerPieces(s, FirstByte(true, opcode), s[1], payload, mask, Masked(payload, mask), rest);
  }

  lemma {:induction false} FrameParses(opcode: Opcode, payload: seq<byte>, mask: Mask, rest: seq<byte>)
    requires |payload| < Pow256(8)
    ensures var (s, n) := (ClientFrame(opcode, payload, mask) + rest, |payload|);
            |s| >= 2 && s[0] == FirstByte(true, opcode) && s[1] >= 128
            && ReadLength(s[1] % 128, s[2..]) == Length(n, mask + Masked(payload, mask) + rest)
            && (s[1] % 128 == 126 <==> ChosenForm(n).Medium?) && (s[1] % 128 == 127 <==> ChosenForm(n).Long?)
  {
    var n := |payload|;
    ChosenFits(n);
    var field := LengthField(n, ChosenForm(n), true);
    var masked := Masked(payload, mask);
    LengthRoundTrip(n, ChosenForm(n), true, mask + masked + rest);
    HeadPieces(FirstByte(true, opcode), field, mask, masked, rest);
  }

  lemma {:induction false} PeerPieces(s: seq<byte>, first: byte, second: byte, payload: seq<byte>,
                                      mask: Mask, masked: seq<byte>, rest: seq<byte>)
    requires |s| >= 2 && s[0] == first && s[1] == second && first / 16 % 8 == 0 && second >= 128
    requires ReadLength(second % 128, s[2..]) == Length(|payload|, mask + masked + rest)
    requires (second % 128 == 126 <==> ChosenForm(|payload|).Medium?) && (second % 128 == 127 <==> ChosenForm(|payload|).Long?)
    requires |payload| < Pow2(63) && |masked| == |payload| && Masked(masked, mask) == payload
    ensures PeerRead(s) == PeerGets(Frame(first >= 128, first % 16, payload), rest)
  {
    BodyPieces(mask, masked, rest);
  }

  // ------------------------------------------------------------------ what the client reads

  datatype FrameRead = More | Broken | Got(frame: Frame, rest: seq<byte>)

  /** `_read_frame` on a byte stream. */
  function ReadFrame(s: seq<byte>): (r: FrameRead)
    ensures r.Got? ==> |r.rest| < |s|
  {
    if |s| < 2 then More
    else if s[0] / 16 % 8 != 0 || s[1] >= 128 then Broken
    else
      match ReadLength(s[1], s[2..])
      case MoreLength => More
      case Length(n, rest) =>
        var (fin, opcode) := (s[0] >= 128, s[0] % 16);
        if n > MAX_MESSAGE_BYTES || (opcode >= CLOSE && (!fin || n > 125)) then Broken
        else if |rest| < n then More
        else Got(Frame(fin, opcode, rest[..n]), rest[n..])
  }

  /** An unmasked server frame with a length form of the server's choosing. */
  function ServerFrame(f: Frame, form: Form): seq<byte>
    requires Fits(|f.payload|, form)
  {
    [FirstByte(f.fin, f.opcode)] + LengthField(|f.payload|, form, false) + f.payload
  }

  predicate Acceptable(f: Frame) {
    |f.payload| <= MAX_MESSAGE_BYTES && (f.opcode >= CLOSE ==> f.fin && |f.payload| <= 125)
  }

  lemma {:induction false} FrameRoundTrip(f: Frame, form: Form, rest: seq<byte>)
    requires Fits(|f.payload|, form) && Acceptable(f)
    ensures ReadFrame(ServerFrame(f, form) + rest) == Got(f, rest)
  {
    var field := LengthField(|f.payload|, form, false);
    HeadPieces(FirstByte(f.fin, f.opcode), field, [], f.payload, rest);
    assert [FirstByte(f.fin, f.opcode)] + field + [] == [FirstByte(f.fin, f.opcode)] + field;
    assert [] + f.payload + rest == f.payload + rest;
    LengthRoundTrip(|f.payload|, form, false, f.payload + rest);
    FramePieces(ServerFrame(f, form) + rest, f, field[0], rest);
  }

  lemma {:induction false} FramePieces(s: seq<byte>, f: Frame, second: byte, rest: seq<byte>)
    requires |s| >= 2 && s[0] == FirstByte(f.fin, f.opcode) && s[1] == second && second < 128
    requires ReadLength(second, s[2..]) == Length(|f.payload|, f.payload + rest) && Acceptable(f)
    ensures ReadFrame(s) == Got(f, rest)
  {
    DropFront(f.payload + rest, f.payload, rest);
  }

  // ------------------------------------------------------------------ reassembly

  datatype Outcome = Text(message: seq<byte>) | Waiting(started: bool) | PeerClosed | Violation

  /** The outcome, what stays unread, and the frames sent in answer, in order. */
  datatype Reply = Reply(outcome: Outcome, rest: seq<byte>, answers: seq<Frame>)
  {
    function After(answer: seq<Frame>): Reply { Reply(outcome, rest, answer + answers) }
  }

  datatype Action = Continue(message: seq<byte>, started: bool, answer: seq<Frame>) | Stop(outcome: Outcome, answer: seq<Frame>)

  /** What `recv_text` does with one frame, given the message so far. */
  function Handle(f: Frame, message: seq<byte>, started: bool): Action {
    if f.opcode == PING then Continue(message, started, [Frame(true, PONG, f.payload)])
    else if f.opcode == PONG then Continue(message, started, [])
    else if f.opcode == CLOSE then
      Stop(PeerClosed, [Frame(true, CLOSE, if |f.payload| < 2 then f.payload else f.payload[..2])])
    else if f.opcode != TEXT && f.opcode != BINARY && f.opcode != CONT then Stop(Violation, [])
    else if started != (f.opcode == CONT) then Stop(Violation, [])
    else
      var grown := if started then message + f.payload else f.payload;
      if |grown| > MAX_MESSAGE_BYTES then Stop(Violation, [])
      else if f.fin then Stop(Text(grown), [])
      else Continue(grown, true, [])
  }

  /** `recv_text` on a byte stream that stalls where it ends. */
  function Receive(s: seq<byte>, message: seq<byte>, started: bool): Reply
    decreases |s|
  {
    match ReadFrame(s)
    case More => Reply(Waiting(started), s, [])
    case Broken => Reply(Violation, s, [])
    case Got(f, rest) =>
      match Handle(f, message, started)
      case Stop(outcome, answer) => Reply(outcome, rest, answer)
      case Continue(message', started', answer) => Receive(rest, message', started').After(answer)
  }

  /** Going on after one frame. */
  function Resume(a: Action, after: seq<byte>): Reply {
    if a.Stop? then Reply(a.outcome, after, a.answer) else Receive(after, a.message, a.started).After(a.answer)
  }

  predicate Control(f: Frame) { f.opcode == PING || f.opcode == PONG }

  /** A message as the standard allows it: one data frame and its continuations, the last of them
      final, with pings and pongs anywhere in between. */
  predicate Legal(frames: seq<Frame>, started: bool) {
    frames != []
    && (var f := frames[0];
        Acceptable(f)
        && if Control(f) then Legal(frames[1..], started)
           else (if started then f.opcode == CONT else f.opcode == TEXT || f.opcode == BINARY)
                && if f.fin then |frames| == 1 else Legal(frames[1..], true))
  }

  function Content(frames: seq<Frame>): seq<byte> {
    if frames == [] then []
    else (if Control(frames[0]) then [] else frames[0].payload) + Content(frames[1..])
  }

  function Pongs(frames: seq<Frame>): seq<Frame> {
    if frames == [] then []
    else (if frames[0].opcode == PING then [Frame(true, PONG, frames[0].payload)] else []) + Pongs(frames[1..])
  }

  predicate AllFit(frames: seq<Frame>, forms: seq<Form>) {
    |forms| == |frames| && forall i :: 0 <= i < |frames| ==> Fits(|frames[i].payload|, forms[i])
  }

  function Encode(frames: seq<Frame>, forms: seq<Form>): seq<byte>
    requires AllFit(frames, forms)
  {
    if frames == [] then [] else ServerFrame(frames[0], forms[0]) + Encode(frames[1..], forms[1..])
  }

  lemma {:induction false} ReceiveStep(f: Frame, form: Form, after: seq<byte>, s: seq<byte>, message: seq<byte>, started: bool)
    requires Fits(|f.payload|, form) && Acceptable(f) && s == ServerFrame(f, form) + after
    ensures Receive(s, message, started) == Resume(Handle(f, message, started), after)
  {
    FrameRoundTrip(f, form, after);
  }

  /** Every legal message comes out whole, its pings answered in order, whatever length forms the
      server used; the bytes after it are untouched. */
  lemma {:induction false} LegalMessageIsReceived(frames: seq<Frame>, forms: seq<Form>, rest: seq<byte>,
                                                  message: seq<byte>, started: bool)
    requires AllFit(frames, forms) && Legal(frames, started) && (!started ==> message == [])
    requires |message| + |Content(frames)| <= MAX_MESSAGE_BYTES
    ensures Receive(Encode(frames, forms) + rest, message, started)
            == Reply(Text(message + Content(frames)), rest, Pongs(frames))
    decreases |frames|
  {
    var f := frames[0];
    var after := Encode(frames[1..], forms[1..]) + rest;
    Regroup(ServerFrame(f, forms[0]), Encode(frames[1..], forms[1..]), rest);
    ReceiveStep(f, forms[0], after, Encode(frames, forms) + rest, message, started);
    if Control(f) {
      LegalMessageIsReceived(frames[1..], forms[1..], rest, message, started);
      assert [] + Content(frames[1..]) == Content(frames[1..]);
      assert f.opcode != PING ==> [] + Pongs(frames[1..]) == Pongs(frames[1..]);
    } else {
      DataFrame(frames, forms, rest, message, started, after);
    }
  }

  lemma {:induction false} DataFrame(frames: seq<Frame>, forms: seq<Form>, rest: seq<byte>,
                                     message: seq<byte>, started: bool, after: seq<byte>)
    requires AllFit(frames, forms) && Legal(frames, started) && !Control(frames[0]) && (!started ==> message == [])
    requires |message| + |Content(frames)| <= MAX_MESSAGE_BYTES
    requires after == Encode(frames[1..], forms[1..]) + rest
    ensures Resume(Handle(frames[0], message, started), after)
            == Reply(Text(message + Content(frames)), rest, Pongs(frames))
    decreases |frames|, 0
  {
    var f := frames[0];
    var grown := message + f.payload;
    assert !started ==> grown == f.payload;
    Regroup(message, f.payload, Content(frames[1..]));
    assert [] + Pongs(frames[1..]) == Pongs(frames[1..]);
    if f.fin {
      assert frames[1..] == [] && after == [] + rest == rest;
      assert grown + [] == grown;
    } else {
      LegalMessageIsReceived(frames[1..], forms[1..], rest, grown, true);
      assert [] + Pongs(frames[1..]) == Pongs(frames[1..]);
    }
  }

  // ------------------------------------------------------------------ what ends a message otherwise

  /** A message under way: pings, pongs and data frames none of which is the last. */
  predicate UnderWay(frames: seq<Frame>, started: bool) {
    frames == []
    || (var f := frames[0];
        Acceptable(f)
        && if Control(f) then UnderWay(frames[1..], started)
           else (if started then f.opcode == CONT else f.opcode == TEXT || f.opcode == BINARY)
                && !f.fin && UnderWay(frames[1..], true))
  }

  predicate HasData(frames: seq<Frame>) { exists i :: 0 <= i < |frames| && !Control(frames[i]) }

  lemma {:induction false} ReceiveThrough(frames: seq<Frame>, forms: seq<Form>, after: seq<byte>, message: seq<byte>, started: bool)
    requires AllFit(frames, forms) && UnderWay(frames, started) && (!started ==> message == [])
    requires |message| + |Content(frames)| <= MAX_MESSAGE_BYTES
    ensures Receive(Encode(frames, forms) + after, message, started)
            == Receive(after, message + Content(frames), started || HasData(frames)).After(Pongs(frames))
    decreases |frames|
  {
    hide Receive, Handle, ServerFrame, ReadFrame;
    if frames == [] {
      assert [] + after == after && message + [] == message;
      AfterNothing(Receive(after, message, started));
    } else {
      var (f, more) := (frames[0], Encode(frames[1..], forms[1..]) + after);
      Regroup(ServerFrame(f, forms[0]), Encode(frames[1..], forms[1..]), after);
      ReceiveStep(f, forms[0], more, Encode(frames, forms) + after, message, started);
      var grown := if Control(f) then message else message + f.payload;
      FrameGoesOn(f, message, started);
      assert HasData(frames) <==> !Control(f) || HasData(frames[1..]) by { DataLater(frames); }
      Regroup(message, if Control(f) then [] else f.payload, Content(frames[1..]));
      assert message + [] == message;
      ReceiveThrough(frames[1..], forms[1..], after, grown, started || !Control(f));
      AnswersInFront(Receive(after, message + Content(frames), started || HasData(frames)), Pongs([f]), Pongs(frames[1..]));
      assert Pongs([f]) + Pongs(frames[1..]) == Pongs(frames) by { assert [f][1..] == []; }
    }
  }

  lemma {:induction false} AfterNothing(r: Reply)
    ensures r.After([]) == r
  {
    assert [] + r.answers == r.answers;
  }

  lemma {:induction false} AnswersInFront(r: Reply, a: seq<Frame>, b: seq<Frame>)
    ensures r.After(b).After(a) == r.After(a + b)
  {
    Regroup(a, b, r.answers);
  }

  lemma {:induction false} DataLater(frames: seq<Frame>)
    requires frames != []
    ensures HasData(frames) <==> !Control(frames[0]) || HasData(frames[1..])
  {
    if HasData(frames[1..]) {
      var i :| 0 <= i < |frames| - 1 && !Control(frames[1..][i]);
      assert !Control(frames[i + 1]);
    }
    if HasData(frames) && Control(frames[0]) {
      var i :| 0 <= i < |frames| && !Control(frames[i]);
      assert !Control(frames[1..][i - 1]);
    }
  }

  lemma {:induction false} FrameGoesOn(f: Frame, message: seq<byte>, started: bool)
    requires UnderWay([f], started) && |message| + |Content([f])| <= MAX_MESSAGE_BYTES && (!started ==> message == [])
    ensures Handle(f, message, started)
            == Continue(if Control(f) then message else message + f.payload, started || !Control(f), Pongs([f]))
  {
    assert [f][1..] == [] && Content([]) == [] && Pongs([]) == [];
  }

  /** A frame that must not come next, in a message under way or with none begun: an unknown opcode, a new
      message inside another, a continuation of nothing, or too many bytes in all. */
  predicate Misplaced(f: Frame, size: nat, started: bool) {
    f.opcode !in {0, 1, 2, 8, 9, 10}
    || (f.opcode in {1, 2} && started) || (f.opcode == 0 && !started)
    || (f.opcode in {0, 1, 2} && size + |f.payload| > 1_048_576)
  }

  /** Such a frame ends the reading as an error, after the pings before it have been answered. */
  lemma {:induction false} MisplacedFrameIsRefused(frames: seq<Frame>, forms: seq<Form>, f: Frame, form: Form, rest: seq<byte>)
    requires AllFit(frames, forms) && UnderWay(frames, false) && |Content(frames)| <= MAX_MESSAGE_BYTES
    requires Fits(|f.payload|, form) && Acceptable(f) && Misplaced(f, |Content(frames)|, HasData(frames))
    ensures Receive(Encode(frames, forms) + (ServerFrame(f, form) + rest), [], false) == Reply(Violation, rest, Pongs(frames))
  {
    hide Receive, ServerFrame, ReadFrame;
    var after := ServerFrame(f, form) + rest;
    ReceiveThrough(frames, forms, after, [], false);
    assert [] + Content(frames) == Content(frames);
    if !HasData(frames) { NoContent(frames); }
    ReceiveStep(f, form, rest, after, Content(frames), HasData(frames));
    assert Pongs(frames) + [] == Pongs(frames);
  }

  lemma {:induction false} NoContent(frames: seq<Frame>)
    requires !HasData(frames)
    ensures Content(frames) == []
  {
    if frames != [] {
      DataLater(frames);
      NoContent(frames[1..]);
    }
  }

  /** A close ends it at any point, answered with its own status code, if it has one. */
  lemma {:induction false} CloseIsAnswered(frames: seq<Frame>, forms: seq<Form>, f: Frame, form: Form, rest: seq<byte>)
    requires AllFit(frames, forms) && UnderWay(frames, false) && |Content(frames)| <= MAX_MESSAGE_BYTES
    requires Fits(|f.payload|, form) && Acceptable(f) && f.opcode == 8
    ensures var status := f.payload[..if |f.payload| < 2 then |f.payload| else 2];
            Receive(Encode(frames, forms) + (ServerFrame(f, form) + rest), [], false)
            == Reply(PeerClosed, rest, Pongs(frames) + [Frame(true, 8, status)])
  {
    hide Receive, ServerFrame, ReadFrame;
    var after := ServerFrame(f, form) + rest;
    ReceiveThrough(frames, forms, after, [], false);
    ReceiveStep(f, form, rest, after, Content(frames), HasData(frames));
    assert [] + Content(frames) == Content(frames);
    assert f.payload[..|f.payload|] == f.payload;
  }

  /** A frame is refused exactly for reserved bits, a mask, its length, or as a control frame that is not
      final or over 125 bytes; otherwise it is read once it is all there. */
  lemma {:induction false} FrameRefusedIff(first: byte, code: byte, tail: seq<byte>)
    ensures var (r, length) := (ReadFrame([first, code] + tail), ReadLength(code % 128, tail));
            && (r == Broken <==> first / 16 % 8 != 0 || code >= 128
                                 || (length.Length? && (length.n > 1_048_576
                                                        || (first % 16 >= 8 && (first < 128 || length.n > 125)))))
            && (r.Got? ==> length.Length? && |length.rest| >= length.n
                           && r == Got(Frame(first >= 128, first % 16, length.rest[..length.n]), length.rest[length.n..]))
            && (r == More ==> length == MoreLength || |length.rest| < length.n)
  {
    assert ([first, code] + tail)[2..] == tail;
  }

  /** `to` is what remains of `from` after some whole frames. */
  ghost predicate AtBoundary(from: seq<byte>, to: seq<byte>)
    decreases |from|
  {
    from == to || (ReadFrame(from).Got? && AtBoundary(ReadFrame(from).rest, to))
  }
}
