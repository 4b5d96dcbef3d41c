/**
 One open serial port (serial_session.py): a reader thread drains the operating
 system's input queue into a bounded buffer, and callers consume it under locks.

 `Fields` is the value of the session's fields and each function below is one
 lock-protected region; the class holds the same fields and updates them in place.
*/
module SerialSession {
  import opened Bytes
  import opened Wrappers

  const BUFFER_LIMIT: nat := 256 * 1024
  const READ_CHUNK: nat := 4096
  const MAX_LINE: nat := 4096
  const NEWLINE: byte := 10

  datatype Fields = Fields(
    buffer: seq<byte>,
    dropped: nat,
    requested: nat,
    completed: nat,
    discarded: nat,
    failed: bool,
    closing: bool)
  {
    predicate Open() { !failed && !closing }
    predicate ClearPending() { requested != completed }
  }

  // ------------------------------------------------------------------ the reader

  /** How many of the oldest bytes overflow a buffer of this length. */
  function Excess(length: nat): nat {
    if length > BUFFER_LIMIT then length - BUFFER_LIMIT else 0
  }

  /** The reader's locked region with `chunk` just read and `waiting` bytes still queued. */
  function Drained(f: Fields, chunk: seq<byte>, waiting: nat): Fields {
    if f.ClearPending() then
      f.(buffer := [], discarded := |f.buffer| + |chunk| + waiting, completed := f.requested)
    else
      var grown := f.buffer + chunk;
      var excess := Excess(|grown|);
      f.(buffer := grown[excess..], dropped := f.dropped + excess)
  }

  /** Under a pending clear everything is discarded, counted and acknowledged; otherwise the newest
      256 KiB are kept, in order, and the rest counted as dropped. */
  lemma {:induction false} DrainedIs(f: Fields, chunk: seq<byte>, waiting: nat)
    ensures var (g, all) := (Drained(f, chunk, waiting), f.buffer + chunk);
            && (f.requested != f.completed ==>
                  g == f.(buffer := [], discarded := |all| + waiting, completed := f.requested))
            && (f.requested == f.completed ==>
                  g == f.(buffer := g.buffer, dropped := f.dropped + (|all| - |g.buffer|))
                  && |g.buffer| == Min(|all|, 262144) && g.buffer == all[|all| - |g.buffer|..])
  {
  }

  // ------------------------------------------------------------------ the callers

  predicate OccursAt(hay: seq<byte>, needle: seq<byte>, i: nat) {
    i + |needle| <= |hay| && hay[i..i + |needle|] == needle
  }

  /** bytearray.find: the first index where needle occurs at or after `from`. */
  function Find(hay: seq<byte>, needle: seq<byte>, from: nat := 0): (i: Option<nat>)
    requires from <= |hay|
    ensures i.Some? ==> from <= i.value && OccursAt(hay, needle, i.value)
    ensures i.Some? ==> forall j :: from <= j < i.value ==> !OccursAt(hay, needle, j)
    ensures i.None? ==> forall j :: from <= j ==> !OccursAt(hay, needle, j)
    decreases |hay| - from
  {
    if from + |needle| > |hay| then None
    else if OccursAt(hay, needle, from) then Some(from)
    else if from == |hay| then None
    else Find(hay, needle, from + 1)
  }

  datatype Attempt = Raise | Wait | Taken(count: nat, timedOut: bool)

  function Min(a: nat, b: nat): nat { if a < b then a else b }

  /** One locked pass of `_read`; `expired` is the clock's verdict on the deadline. */
  function ReadAttempt(f: Fields, maxBytes: int, until: Option<seq<byte>>, expired: bool): (r: Attempt)
    ensures r.Taken? ==> r.count <= |f.buffer|
  {
    var cap := if maxBytes < 1 then 1 else Min(maxBytes, BUFFER_LIMIT);
    if !f.Open() then Raise
    else
      var hit := if until.Some? then Find(f.buffer, until.value) else None;
      if hit.Some? then Taken(Min(hit.value + |until.value|, cap), false)
      else if until.None? && f.buffer != [] then Taken(Min(|f.buffer|, cap), false)
      else if expired then Taken(Min(|f.buffer|, cap), true)
      else Wait
  }

  // ------------------------------------------------------------------ what a read hands out

  predicate EndsWith(s: seq<byte>, end: seq<byte>) { |end| <= |s| && s[|s| - |end|..] == end }

  /** The first n bytes are the shortest beginning that ends with the terminator. */
  ghost predicate ThroughFirst(s: seq<byte>, terminator: seq<byte>, n: nat) {
    n <= |s| && EndsWith(s[..n], terminator) && forall m: nat :: m < n ==> !EndsWith(s[..m], terminator)
  }

  function Room(maxBytes: int): nat { if maxBytes < 1 then 1 else if maxBytes > 262144 then 262144 else maxBytes }

  /** What a pass of a read is for: through the first terminator, or whatever there is if none was
      asked for or time is up, at most `maxBytes` (from 1 to 256 KiB); it waits only with nothing to
      return and time left. */
  ghost predicate ReadIs(open: bool, buffer: seq<byte>, maxBytes: int, until: Option<seq<byte>>, expired: bool,
                         r: Attempt, data: seq<byte>)
  {
    var room := Room(maxBytes);
    var ready := if until.Some? then exists n: nat :: ThroughFirst(buffer, until.value, n) else buffer != [];
    && (r.Raise? <==> !open)
    && (r.Wait? <==> open && !ready && !expired)
    && (r.Taken? ==> r.count == |data| && (r.timedOut <==> !ready))
    && (r.Taken? && until.Some? ==>
          forall n: nat :: ThroughFirst(buffer, until.value, n) ==> data == buffer[..Min(n, room)])
    && (r.Taken? && !(ready && until.Some?) ==> data == buffer[..Min(|buffer|, room)])
    && (!r.Taken? ==> data == [])
  }

  lemma {:induction false} ThroughFound(s: seq<byte>, terminator: seq<byte>)
    ensures Find(s, terminator).Some? ==> ThroughFirst(s, terminator, Find(s, terminator).value + |terminator|)
    ensures (exists n: nat :: ThroughFirst(s, terminator, n)) ==> Find(s, terminator).Some?
  {
    forall n: nat | n <= |s|
      ensures EndsWith(s[..n], terminator) <==> n >= |terminator| && OccursAt(s, terminator, n - |terminator|)
    {
      if n >= |terminator| { assert s[..n][n - |terminator|..] == s[n - |terminator|..n]; }
    }
  }

  lemma {:induction false} ThroughOnce(s: seq<byte>, terminator: seq<byte>, n: nat, m: nat)
    requires ThroughFirst(s, terminator, n) && ThroughFirst(s, terminator, m)
    ensures n == m
  {
  }

  /** Every pass hands out exactly that. */
  lemma {:induction false} ReadsExactly(f: Fields, maxBytes: int, until: Option<seq<byte>>, expired: bool)
    ensures var r := ReadAttempt(f, maxBytes, until, expired);
            ReadIs(f.Open(), f.buffer, maxBytes, until, expired, r, if r.Taken? then f.buffer[..r.count] else [])
  {
    if until.Some? {
      ThroughFound(f.buffer, until.value);
      forall n: nat, m: nat | ThroughFirst(f.buffer, until.value, n) && ThroughFirst(f.buffer, until.value, m)
        ensures n == m
      {
        ThroughOnce(f.buffer, until.value, n, m);
      }
    }
  }

  /** Bytes that arrive later never change where the first terminator ends. */
  lemma {:induction false} ThroughIsStable(s: seq<byte>, terminator: seq<byte>, n: nat, more: seq<byte>)
    requires ThroughFirst(s, terminator, n)
    ensures ThroughFirst(s + more, terminator, n)
  {
    forall m: nat | m <= n ensures (s + more)[..m] == s[..m] {}
  }

  /** The length of the line `expect` would consume next: through the first newline
      among the first MAX_LINE bytes, else MAX_LINE bytes, else nothing yet. */
  function FirstLine(buffer: seq<byte>): (n: Option<nat>)
    ensures n.Some? ==> 1 <= n.value <= |buffer| && n.value <= MAX_LINE
  {
    var hit := Find(buffer[..Min(|buffer|, MAX_LINE)], [NEWLINE]);
    if hit.Some? then Some(hit.value + 1)
    else if |buffer| >= MAX_LINE then Some(MAX_LINE)
    else None
  }

  /** A line ends with its only newline, or is 4096 bytes long without one. */
  predicate IsLine(line: seq<byte>) {
    0 < |line| <= 4096 && 10 !in line[..|line| - 1] && (line[|line| - 1] == 10 || |line| == 4096)
  }

  lemma {:induction false} FirstLineIs(buffer: seq<byte>)
    ensures match FirstLine(buffer)
            case None => |buffer| < 4096 && 10 !in buffer
            case Some(n) => IsLine(buffer[..n])
    ensures forall n: nat :: 0 < n <= |buffer| && IsLine(buffer[..n]) ==> FirstLine(buffer) == Some(n)
  {
    var head := buffer[..Min(|buffer|, MAX_LINE)];
    forall i: nat ensures OccursAt(head, [NEWLINE], i) <==> i < |head| && buffer[i] == NEWLINE {
      NewlineAt(head, i);
    }
    forall n: nat | 0 < n <= |buffer| && IsLine(buffer[..n]) ensures FirstLine(buffer) == Some(n) {
      forall i | 0 <= i < n - 1 ensures buffer[i] != NEWLINE { assert buffer[i] == buffer[..n][..n - 1][i]; }
      assert buffer[..n][n - 1] == buffer[n - 1];
      if buffer[n - 1] == NEWLINE { assert OccursAt(head, [NEWLINE], n - 1); }
    }
    if FirstLine(buffer).Some? {
      var n := FirstLine(buffer).value;
      assert buffer[n - 1] == NEWLINE || n == 4096;
      forall i | 0 <= i < n - 1 ensures buffer[i] != 10 { assert !OccursAt(head, [NEWLINE], i); }
      assert buffer[..n][..n - 1] == buffer[..n - 1];
    } else {
      forall i | 0 <= i < |buffer| ensures buffer[i] != 10 { assert !OccursAt(head, [NEWLINE], i); }
    }
  }

  // ------------------------------------------------------------------ expect

  /** What one locked scan does: consume whole lines until one matches. */
  datatype Scan = Scan(lines: seq<seq<byte>>, rest: seq<byte>, matched: bool)

  function ScanLines(buffer: seq<byte>, matches: seq<byte> -> bool): (s: Scan)
    decreases |buffer|
  {
    match FirstLine(buffer)
    case None => Scan([], buffer, false)
    case Some(n) =>
      var line := buffer[..n];
      if matches(line) then Scan([line], buffer[n..], true)
      else
        var more := ScanLines(buffer[n..], matches);
        more.(lines := [line] + more.lines)
  }

  /** The batch split of a whole stream: every line it holds, and what is left over. */
  function Split(stream: seq<byte>): Scan {
    ScanLines(stream, _ => false)
  }

  lemma {:induction false} NewlineAt(hay: seq<byte>, i: nat)
    ensures OccursAt(hay, [NEWLINE], i) <==> i < |hay| && hay[i] == NEWLINE
  {
    if i < |hay| {
      assert hay[i..i + 1] == [hay[i]];
    }
  }

  /** Bytes that arrive later never change where the next line ends. */
  lemma {:induction false} LineEndIsStable(buffer: seq<byte>, more: seq<byte>)
    requires FirstLine(buffer).Some?
    ensures FirstLine(buffer + more) == FirstLine(buffer)
  {
    var head := buffer[..Min(|buffer|, MAX_LINE)];
    var longer := (buffer + more)[..Min(|buffer + more|, MAX_LINE)];
    var hit := Find(head, [NEWLINE]);
    if hit.Some? {
      forall i: nat ensures OccursAt(head, [NEWLINE], i) ==> OccursAt(longer, [NEWLINE], i)
        ensures OccursAt(longer, [NEWLINE], i) && i < |head| ==> OccursAt(head, [NEWLINE], i) {
        NewlineAt(head, i);
        NewlineAt(longer, i);
      }
    } else {
      assert head == longer;
    }
  }

  /** The next line of a stream is the next line of what has arrived of it. */
  lemma {:induction false} SplitStep(buffer: seq<byte>, more: seq<byte>)
    requires FirstLine(buffer).Some?
    ensures var n := FirstLine(buffer).value;
            Split(buffer + more).lines == [buffer[..n]] + Split(buffer[n..] + more).lines
            && Split(buffer + more).rest == Split(buffer[n..] + more).rest
  {
    LineEndIsStable(buffer, more);
    var n := FirstLine(buffer).value;
    assert (buffer + more)[..n] == buffer[..n];
    assert (buffer + more)[n..] == buffer[n..] + more;
  }

  /** A locked scan takes the first lines of the batch split, and leaves its remainder. */
  lemma {:induction false} ScanIsBatchPrefix(buffer: seq<byte>, more: seq<byte>, matches: seq<byte> -> bool)
    ensures var s := ScanLines(buffer, matches);
            Split(buffer + more).lines == s.lines + Split(s.rest + more).lines
            && Split(buffer + more).rest == Split(s.rest + more).rest
    decreases |buffer|
  {
    if FirstLine(buffer).Some? {
      var n := FirstLine(buffer).value;
      SplitStep(buffer, more);
      if !matches(buffer[..n]) {
        ScanIsBatchPrefix(buffer[n..], more, matches);
      }
    }
  }

  /** A scan moves bytes; it neither loses nor invents any. */
  lemma {:induction false} ScanKeepsBytes(buffer: seq<byte>, matches: seq<byte> -> bool)
    ensures buffer == Flatten(ScanLines(buffer, matches).lines) + ScanLines(buffer, matches).rest
    decreases |buffer|
  {
    hide FirstLine;
    if FirstLine(buffer).Some? {
      var n := FirstLine(buffer).value;
      var lines := ScanLines(buffer, matches).lines;
      assert Flatten(lines) == buffer[..n] + Flatten(lines[1..]);
      if matches(buffer[..n]) {
        assert lines[1..] == [];
      } else {
        ScanKeepsBytes(buffer[n..], matches);
        assert lines[1..] == ScanLines(buffer[n..], matches).lines;
      }
    }
  }

  /** An unmatched scan leaves nothing that is already a line. */
  lemma {:induction false} UnmatchedScanLeavesNoLine(buffer: seq<byte>, matches: seq<byte> -> bool)
    requires !ScanLines(buffer, matches).matched
    ensures var rest := ScanLines(buffer, matches).rest;
            |rest| < MAX_LINE && NEWLINE !in rest && Split(rest) == Scan([], rest, false)
    decreases |buffer|
  {
    match FirstLine(buffer)
    case None =>
      assert buffer[..|buffer|] == buffer;
      forall i: nat | i < |buffer| ensures buffer[i] != NEWLINE {
        NewlineAt(buffer, i);
      }
    case Some(n) => UnmatchedScanLeavesNoLine(buffer[n..], matches);
  }

  /** What a scan is for: whole lines up to the first that matches, or all there are and then no line. */
  ghost predicate IsScan(buffer: seq<byte>, matches: seq<byte> -> bool, lines: seq<seq<byte>>, rest: seq<byte>, matched: bool) {
    && buffer == Flatten(lines) + rest
    && (forall i :: 0 <= i < |lines| ==> IsLine(lines[i]) && (matches(lines[i]) <==> matched && i == |lines| - 1))
    && (if matched then lines != [] else |rest| < 4096 && 10 !in rest)
  }

  lemma {:induction false} ScanIs(buffer: seq<byte>, matches: seq<byte> -> bool)
    ensures var s := ScanLines(buffer, matches); IsScan(buffer, matches, s.lines, s.rest, s.matched)
    decreases |buffer|
  {
    hide FirstLine, IsLine;
    ScanKeepsBytes(buffer, matches);
    FirstLineIs(buffer);
    if FirstLine(buffer).Some? {
      var n := FirstLine(buffer).value;
      if !matches(buffer[..n]) { ScanIs(buffer[n..], matches); }
    }
  }

  /** Nothing else is such a scan, so a scan is what is said of it and the batch split is the only one. */
  lemma {:induction false} ScanIsIff(buffer: seq<byte>, matches: seq<byte> -> bool, s: Scan)
    ensures s == ScanLines(buffer, matches) <==> IsScan(buffer, matches, s.lines, s.rest, s.matched)
    decreases |buffer|
  {
    hide FirstLine, IsLine;
    ScanIs(buffer, matches);
    if IsScan(buffer, matches, s.lines, s.rest, s.matched) {
      FirstLineIs(buffer);
      if s.lines == [] {
        assert buffer == s.rest;
        NoLineYet(buffer);
      } else {
        var (line, tail) := (s.lines[0], Flatten(s.lines[1..]) + s.rest);
        Regroup(line, Flatten(s.lines[1..]), s.rest);
        DropFront(buffer, line, tail);
        NotEmpty(line);
        assert [line] + s.lines[1..] == s.lines;
        if !matches(line) { ScanIsIff(tail, matches, s.(lines := s.lines[1..])); }
      }
    }
  }

  lemma {:induction false} NotEmpty(line: seq<byte>)
    requires IsLine(line)
    ensures |line| > 0
  {
  }

  lemma {:induction false} NoLineYet(buffer: seq<byte>)
    requires |buffer| < 4096 && 10 !in buffer
    ensures FirstLine(buffer) == None
  {
    FirstLineIs(buffer);
  }

  /** A history of one reader with only `expect` callers: bytes arrive in any chunking,
      and each locked scan uses whatever matcher its caller passed. */
  datatype Turn = Chunk(bytes: seq<byte>) | Expect(matches: seq<byte> -> bool)

  function Arrivals(turns: seq<Turn>): seq<byte> {
    if turns == [] then []
    else Arrivals(turns[..|turns| - 1])
         + match turns[|turns| - 1] { case Chunk(b) => b case Expect(_) => [] }
  }

  /** Every line consumed so far, and the buffer, after a history in which nothing overflowed. */
  function Play(turns: seq<Turn>): (seq<seq<byte>>, seq<byte>) {
    if turns == [] then ([], [])
    else
      var (lines, buffer) := Play(turns[..|turns| - 1]);
      match turns[|turns| - 1]
      case Chunk(b) => (lines, buffer + b)
      case Expect(m) => var s := ScanLines(buffer, m); (lines + s.lines, s.rest)
  }

  /** `expect` does not depend on chunking: over any number of calls and any arrival
      pattern, the lines consumed are the first lines of the whole stream's batch split,
      and what they leave is split exactly as the batch would have split it. */
  lemma {:induction false} ExpectIgnoresChunking(turns: seq<Turn>, future: seq<byte>)
    ensures var (lines, buffer) := Play(turns);
            Split(Arrivals(turns) + future).lines == lines + Split(buffer + future).lines
            && Split(Arrivals(turns) + future).rest == Split(buffer + future).rest
  {
    if turns != [] {
      var before := turns[..|turns| - 1];
      match turns[|turns| - 1]
      case Chunk(b) =>
        ExpectIgnoresChunking(before, b + future);
        assert Arrivals(turns) + future == Arrivals(before) + (b + future);
        assert Play(before).1 + b + future == Play(before).1 + (b + future);
      case Expect(m) =>
        ExpectIgnoresChunking(before, future);
        assert Arrivals(turns) == Arrivals(before);
        ExpectTurn(Play(before).0, Play(before).1, future, m);
    }
  }

  lemma {:induction false} ExpectTurn(lines: seq<seq<byte>>, buffer: seq<byte>, future: seq<byte>, m: seq<byte> -> bool)
    ensures var s := ScanLines(buffer, m);
            lines + Split(buffer + future).lines == lines + s.lines + Split(s.rest + future).lines
            && Split(buffer + future).rest == Split(s.rest + future).rest
  {
    ScanIsBatchPrefix(buffer, future, m);
  }

  /** When the last call timed out, the lines consumed are the whole batch split and the
      buffer is its remainder: no newline in it and shorter than MAX_LINE. */
  lemma {:induction false} TimedOutExpectIsExact(turns: seq<Turn>, m: seq<byte> -> bool)
    requires !ScanLines(Play(turns).1, m).matched
    ensures var (lines, buffer) := Play(turns + [Expect(m)]);
            Split(Arrivals(turns)) == Scan(lines, buffer, false)
            && |buffer| < MAX_LINE && NEWLINE !in buffer
  {
    var all := turns + [Expect(m)];
    assert all[..|all| - 1] == turns;
    ExpectIgnoresChunking(all, []);
    UnmatchedScanLeavesNoLine(Play(turns).1, m);
    var (lines, buffer) := Play(all);
    assert Arrivals(all) == Arrivals(turns);
    assert Arrivals(turns) + [] == Arrivals(turns) && buffer + [] == buffer;
    SplitNeverMatches(Arrivals(turns));
  }

  lemma {:induction false} SplitNeverMatches(stream: seq<byte>)
    ensures !Split(stream).matched
    decreases |stream|
  {
    if FirstLine(stream).Some? {
      SplitNeverMatches(stream[FirstLine(stream).value..]);
    }
  }

  /** One iteration of the scan, with the lines already consumed in front. */
  lemma {:induction false} ScanPeels(buffer: seq<byte>, matches: seq<byte> -> bool, done: seq<seq<byte>>)
    requires FirstLine(buffer).Some?
    ensures var n := FirstLine(buffer).value;
            var (s, more) := (ScanLines(buffer, matches), ScanLines(buffer[n..], matches));
            if matches(buffer[..n]) then done + s.lines == done + [buffer[..n]] && s.rest == buffer[n..] && s.matched
            else done + s.lines == done + [buffer[..n]] + more.lines && s.rest == more.rest && s.matched == more.matched
  {
    var n := FirstLine(buffer).value;
    Regroup(done, [buffer[..n]], ScanLines(buffer[n..], matches).lines);
  }

  // ------------------------------------------------------------------ the object

  class Session {
    var buffer: seq<byte>
    var dropped: nat
    var clearRequested: nat
    var clearCompleted: nat
    var clearDiscarded: nat
    var failed: bool
    var closing: bool

    function Value(): Fields
      reads this
    {
      Fields(buffer, dropped, clearRequested, clearCompleted, clearDiscarded, failed, closing)
    }

    constructor ()
      ensures Value() == Fields([], 0, 0, 0, 0, false, false)
    {
      buffer, dropped := [], 0;
      clearRequested, clearCompleted, clearDiscarded := 0, 0, 0;
      failed, closing := false, false;
    }

    /** `_drain` after `serial.read`: acknowledge a pending clear, or append and trim. */
    method Drain(chunk: seq<byte>, waiting: nat)
      modifies this
      ensures Value() == Drained(old(Value()), chunk, waiting)
    {
      if clearRequested != clearCompleted {
        clearDiscarded := |buffer| + |chunk| + waiting;
        buffer := [];
        clearCompleted := clearRequested;
        return;
      }
      if chunk != [] {
        buffer := buffer + chunk;
      } else {
        assert buffer + chunk == buffer;
      }
      if |buffer| > BUFFER_LIMIT {
        var excess := |buffer| - BUFFER_LIMIT;
        buffer := buffer[excess..];
        dropped := dropped + excess;
      }
    }

    /** `_take`: hand the oldest bytes to the caller. */
    method Take(count: nat) returns (data: seq<byte>)
      requires count <= |buffer|
      modifies this`buffer
      ensures data == old(buffer)[..count] && data + buffer == old(buffer)
    {
      data := buffer[..count];
      buffer := buffer[count..];
    }

    /** One locked pass of `_read`. */
    method TryRead(maxBytes: int, until: Option<seq<byte>>, expired: bool) returns (r: Attempt, data: seq<byte>)
      modifies this`buffer
      ensures r == ReadAttempt(old(Value()), maxBytes, until, expired)
      ensures ReadIs(old(Value()).Open(), old(buffer), maxBytes, until, expired, r, data)
      ensures data + buffer == old(buffer)
      ensures |data| == if r.Taken? then r.count else 0
    {
      hide ReadIs, Find;
      ReadsExactly(Value(), maxBytes, until, expired);
      data := [];
      var cap := if maxBytes < 1 then 1 else Min(maxBytes, BUFFER_LIMIT);
      if failed || closing {
        return Raise, data;
      }
      if until.Some? {
        var index := Find(buffer, until.value);
        if index.Some? {
          var end := Min(index.value + |until.value|, cap);
          data := Take(end);
          return Taken(end, false), data;
        }
      } else if buffer != [] {
        var end := Min(|buffer|, cap);
        data := Take(end);
        return Taken(end, false), data;
      }
      if expired {
        var end := Min(|buffer|, cap);
        data := Take(end);
        return Taken(end, true), data;
      }
      return Wait, data;
    }

    /** The locked scan of `expect`: lines after the match stay buffered. */
    method ScanBuffer(matches: seq<byte> -> bool) returns (lines: seq<seq<byte>>, matched: bool)
      modifies this`buffer
      ensures Scan(lines, buffer, matched) == ScanLines(old(buffer), matches)
      ensures IsScan(old(buffer), matches, lines, buffer, matched)
    {
      ScanIs(buffer, matches);
      lines, matched := [], false;
      while FirstLine(buffer).Some?
        invariant var todo := ScanLines(buffer, matches);
          ScanLines(old(buffer), matches) == todo.(lines := lines + todo.lines)
        decreases |buffer|
      {
        var end := FirstLine(buffer).value;
        var line := buffer[..end];
        ScanPeels(buffer, matches, lines);
        buffer := buffer[end..];
        lines := lines + [line];
        if matches(line) {
          matched := true;
          return;
        }
      }
    }

    /** `clear` up to its wait. */
    method RequestClear() returns (ok: bool)
      modifies this`clearRequested
      ensures ok == old(Value()).Open()
      ensures Value() == if ok then old(Value()).(requested := old(clearRequested) + 1) else old(Value())
    {
      ok := !failed && !closing;
      if ok {
        clearRequested := clearRequested + 1;
      }
    }

    /** One pass of `clear`'s wait loop; a wait past two seconds fails the session. */
    method PollClear(expired: bool) returns (r: Option<nat>, raised: bool)
      modifies this`failed
      ensures r == (if clearCompleted == clearRequested then Some(clearDiscarded) else None)
      ensures raised == (r.None? && (expired || !old(Value()).Open()))
      ensures Value() == old(Value()).(failed := failed)
      ensures failed == (old(failed) || (r.None? && !old(closing) && expired))
    {
      if clearCompleted == clearRequested {
        return Some(clearDiscarded), false;
      }
      if failed || closing {
        return None, true;
      }
      if expired {
        failed := true;
        return None, true;
      }
      return None, false;
    }
  }
}
