/**
 Every interleaving of the reader thread with any number of calling threads.

 A step is one lock-protected region of serial_session.py, one `serial.read`, one
 write, or an event of the outside world. `arrived` is the ghost history of every
 byte the device ever delivered to the operating system's queue, and `log` records
 what became of those bytes and which clears and writes happened, in order.
*/
module SerialRuns {
  import opened Bytes
  import opened SerialSession
  import opened Wrappers

  type Tid = nat

  datatype Event =
    | Delivered(tid: Tid, from: nat, to: nat, data: seq<byte>)
    | Reply(tid: Tid, from: nat, to: nat, data: seq<byte>, requested: nat, cleared: nat, wrote: nat)
    | Dropped(from: nat, to: nat)
    | Cleared(from: nat, to: nat, reported: nat)
    | Requested(tid: Tid)
    | Wrote(tid: Tid, inQuery: bool, cleared: nat)
  {
    predicate Consumes() { Delivered? || Reply? || Dropped? || Cleared? }
  }

  datatype Reader = Polling | InHand(chunk: seq<byte>) | Dead(chunk: seq<byte>)
  {
    function Chunk(): seq<byte> { if Polling? then [] else chunk }
  }

  /** Where a thread is. The numbers are log positions: the clear request, its
      acknowledgement and the write that the thread has got past. */
  datatype Pc =
    | Idle
    | Holding
    | ClearWait(inQuery: bool, requested: nat)
    | QueryWrite(requested: nat, cleared: nat)
    | QueryRead(requested: nat, cleared: nat, wrote: nat)

  datatype State = State(
    fields: Fields,
    osQueue: seq<byte>,
    reader: Reader,
    owner: Option<Tid>,
    pcs: map<Tid, Pc>,
    arrived: seq<byte>,
    head: nat,
    log: seq<Event>,
    lastCleared: nat)
  {
    function Pc(t: Tid): Pc { if t in pcs then pcs[t] else Idle }
    function At(t: Tid, pc: Pc): State { this.(pcs := pcs[t := pc]) }
    function Note(e: Event): State { this.(log := log + [e]) }
    function Hand(n: nat): State
      requires n <= |fields.buffer|
    {
      this.(fields := fields.(buffer := fields.buffer[n..]), head := head + n)
    }
  }

  const START := State(Fields([], 0, 0, 0, 0, false, false), [], Polling, None, map[], [], 0, [], 0)

  datatype Step =
    | Arrive(bytes: seq<byte>)
    | SerialRead(count: nat)
    | DrainRegion(late: seq<byte>, later: seq<byte>)
    | ReaderFails
    | CloseSession
    | Acquire(tid: Tid)
    | Release(tid: Tid)
    | ReadPass(tid: Tid, maxBytes: int, until: Option<seq<byte>>, expired: bool)
    | ExpectLine(tid: Tid)
    | PlainWrite(tid: Tid)
    | ClearRequest(tid: Tid, inQuery: bool)
    | ClearReturns(tid: Tid)
    | ClearRaises(tid: Tid, expired: bool)
    | QuerySends(tid: Tid)
    | QueryAborts(tid: Tid)

  predicate Enabled(s: State, step: Step) {
    match step
    case Arrive(_) => true
    case SerialRead(n) => s.reader == Polling && !s.fields.closing && n <= READ_CHUNK && n <= |s.osQueue|
    case DrainRegion(_, _) => s.reader.InHand?
    case ReaderFails => !s.reader.Dead?
    case CloseSession => true
    case Acquire(t) => s.owner == None && s.Pc(t) == Idle
    case Release(t) => s.Pc(t) == Holding
    case ReadPass(t, _, _, _) => s.Pc(t) == Holding || s.Pc(t).QueryRead?
    case ExpectLine(t) => s.Pc(t) == Holding && s.fields.Open() && FirstLine(s.fields.buffer).Some?
    case PlainWrite(t) => s.Pc(t) == Holding && s.fields.Open()
    case ClearRequest(t, _) => s.Pc(t) == Holding && s.fields.Open()
    case ClearReturns(t) => s.Pc(t).ClearWait? && !s.fields.ClearPending()
    case ClearRaises(t, expired) => s.Pc(t).ClearWait? && s.fields.ClearPending() && (expired || !s.fields.Open())
    case QuerySends(t) => s.Pc(t).QueryWrite? && s.fields.Open()
    case QueryAborts(t) => s.Pc(t).QueryWrite? || s.Pc(t).QueryRead?
  }

  /** `late` bytes arrive between `in_waiting` and `reset_input_buffer`, `later` bytes
      between the reset and the acknowledgement; both only matter when a clear is pending. */
  function DrainStep(s: State, late: seq<byte>, later: seq<byte>): State
    requires s.reader.InHand?
  {
    var chunk := s.reader.chunk;
    var fields := Drained(s.fields, chunk, |s.osQueue|);
    if s.fields.ClearPending() then
      var end := s.head + |s.fields.buffer| + |chunk| + |s.osQueue| + |late|;
      s.(fields := fields, reader := Polling, osQueue := later,
         arrived := s.arrived + late + later, head := end, lastCleared := |s.log|)
       .Note(Cleared(s.head, end, fields.discarded))
    else
      var excess := Excess(|s.fields.buffer + chunk|);
      var kept := s.(fields := fields, reader := Polling, head := s.head + excess);
      if excess == 0 then kept else kept.Note(Dropped(s.head, s.head + excess))
  }

  function ReadStep(s: State, t: Tid, r: Attempt): State
    requires r.Taken? ==> r.count <= |s.fields.buffer|
  {
    match r
    case Raise => s.At(t, Holding)
    case Wait => s
    case Taken(n, _) =>
      var pc := s.Pc(t);
      var data := s.fields.buffer[..n];
      var event :=
        if pc.QueryRead? then Reply(t, s.head, s.head + n, data, pc.requested, pc.cleared, pc.wrote)
        else Delivered(t, s.head, s.head + n, data);
      s.Note(event).Hand(n).At(t, Holding)
  }

  function Do(s: State, step: Step): State
    requires Enabled(s, step)
  {
    match step
    case Arrive(bytes) => s.(arrived := s.arrived + bytes, osQueue := s.osQueue + bytes)
    case SerialRead(n) => s.(reader := InHand(s.osQueue[..n]), osQueue := s.osQueue[n..])
    case DrainRegion(late, later) => DrainStep(s, late, later)
    case ReaderFails => s.(reader := Dead(s.reader.Chunk()), fields := s.fields.(failed := true))
    case CloseSession => s.(fields := s.fields.(closing := true))
    case Acquire(t) => s.(owner := Some(t)).At(t, Holding)
    case Release(t) => s.(owner := None).At(t, Idle)
    case ReadPass(t, maxBytes, until, expired) =>
      var max := if s.Pc(t).QueryRead? then 4096 else maxBytes;
      ReadStep(s, t, ReadAttempt(s.fields, max, until, expired))
    case ExpectLine(t) =>
      var n := FirstLine(s.fields.buffer).value;
      s.Note(Delivered(t, s.head, s.head + n, s.fields.buffer[..n])).Hand(n)
    case PlainWrite(t) => s.Note(Wrote(t, false, 0))
    case ClearRequest(t, inQuery) =>
      s.(fields := s.fields.(requested := s.fields.requested + 1))
       .At(t, ClearWait(inQuery, |s.log|)).Note(Requested(t))
    case ClearReturns(t) =>
      if s.Pc(t).inQuery then s.At(t, QueryWrite(s.Pc(t).requested, s.lastCleared)) else s.At(t, Holding)
    case ClearRaises(t, expired) =>
      s.(fields := s.fields.(failed := s.fields.failed || (s.fields.Open() && expired))).At(t, Holding)
    case QuerySends(t) =>
      var pc := s.Pc(t);
      s.At(t, QueryRead(pc.requested, pc.cleared, |s.log|)).Note(Wrote(t, true, pc.cleared))
    case QueryAborts(t) => s.At(t, Holding)
  }

  ghost predicate CanRun(s: State, run: seq<Step>)
    decreases |run|
  {
    run == [] || (Enabled(s, run[0]) && CanRun(Do(s, run[0]), run[1..]))
  }

  ghost function After(s: State, run: seq<Step>): State
    requires CanRun(s, run)
    decreases |run|
  {
    if run == [] then s else After(Do(s, run[0]), run[1..])
  }

  // ------------------------------------------------------------------ what became of each byte

  /** The end of the last consumed segment. */
  ghost function Reach(log: seq<Event>): nat {
    if log == [] then 0
    else
      var last := log[|log| - 1];
      if last.Consumes() then last.to else Reach(log[..|log| - 1])
  }

  /** Consumed segments follow one another without gap or overlap, from byte 0 on. */
  ghost predicate Tiles(log: seq<Event>) {
    log == []
    || (var (before, last) := (log[..|log| - 1], log[|log| - 1]);
        Tiles(before) && (last.Consumes() ==> last.from == Reach(before) && last.from <= last.to))
  }

  datatype Fate = ToCaller | Overflowed | Discarded

  ghost function FateOf(e: Event): Fate
    requires e.Consumes()
  {
    if e.Dropped? then Overflowed else if e.Cleared? then Discarded else ToCaller
  }

  ghost function Total(log: seq<Event>, fate: Fate): nat
    requires Tiles(log)
  {
    if log == [] then 0
    else
      var (before, last) := (log[..|log| - 1], log[|log| - 1]);
      Total(before, fate) + if last.Consumes() && FateOf(last) == fate then last.to - last.from else 0
  }

  lemma {:induction false} TilesSnoc(log: seq<Event>, e: Event)
    requires Tiles(log)
    requires e.Consumes() ==> e.from == Reach(log) <= e.to
    ensures Tiles(log + [e])
    ensures Reach(log + [e]) == if e.Consumes() then e.to else Reach(log)
    ensures forall fate :: Total(log + [e], fate)
              == Total(log, fate) + if e.Consumes() && FateOf(e) == fate then e.to - e.from else 0
  {
    assert (log + [e])[..|log|] == log;
  }

  lemma {:induction false} TilesAccount(log: seq<Event>)
    requires Tiles(log)
    ensures Reach(log) == Total(log, ToCaller) + Total(log, Overflowed) + Total(log, Discarded)
  {
    if log != [] { TilesAccount(log[..|log| - 1]); }
  }

  // ------------------------------------------------------------------ the invariant

  ghost predicate BytesInv(s: State) {
    && s.head <= |s.arrived|
    && s.arrived[s.head..] == s.fields.buffer + s.reader.Chunk() + s.osQueue
    && |s.fields.buffer| <= BUFFER_LIMIT
    && Tiles(s.log) && Reach(s.log) == s.head
    && Total(s.log, Overflowed) == s.fields.dropped
  }

  /** What a caller was handed is the history's own segment, and a clear never reports
      discarding more than it did. */
  ghost predicate EventTrue(e: Event, arrived: seq<byte>) {
    && (e.Delivered? || e.Reply? ==> e.from <= e.to <= |arrived| && e.data == arrived[e.from..e.to])
    && (e.Cleared? ==> e.from + e.reported <= e.to)
  }

  ghost predicate DataInv(s: State) {
    forall k :: 0 <= k < |s.log| ==> EventTrue(s.log[k], s.arrived)
  }

  /** Only bytes falling off the front happened after log position i. */
  ghost predicate OnlyDrops(log: seq<Event>, i: nat, end: nat)
    requires end <= |log|
  {
    forall j :: i < j < end ==> log[j].Dropped?
  }

  /** Log positions r < c < w (or end, before the write) of one query's request, clear and write. */
  ghost predicate QueryPrefix(log: seq<Event>, t: Tid, r: nat, c: nat, end: nat)
    requires end <= |log|
  {
    r < c < end && log[r] == Requested(t) && log[c].Cleared?
    && OnlyDrops(log, r, c) && OnlyDrops(log, c, end)
  }

  /** A query reply is fresh: its thread asked for a clear, the reader acknowledged it, the
      query was written, and nothing but overflow touched the input from there to the reply,
      which starts at or after the acknowledged position. */
  ghost predicate Fresh(log: seq<Event>, k: nat)
    requires k < |log| && log[k].Reply?
  {
    var e := log[k];
    e.wrote < k && QueryPrefix(log, e.tid, e.requested, e.cleared, e.wrote)
    && log[e.wrote] == Wrote(e.tid, true, e.cleared)
    && OnlyDrops(log, e.wrote, k)
    && log[e.cleared].to <= e.from
  }

  /** A query's write follows an acknowledged clear with nothing consumed in between. */
  ghost predicate WriteAcknowledged(log: seq<Event>, k: nat)
    requires k < |log| && log[k].Wrote?
  {
    log[k].inQuery ==> log[k].cleared < k && log[log[k].cleared].Cleared? && OnlyDrops(log, log[k].cleared, k)
  }

  ghost predicate LogInv(log: seq<Event>) {
    && (forall k :: 0 <= k < |log| && log[k].Reply? ==> Fresh(log, k))
    && (forall k :: 0 <= k < |log| && log[k].Wrote? ==> WriteAcknowledged(log, k))
  }

  ghost predicate PcInv(s: State, t: Tid) {
    match s.Pc(t)
    case Idle => true
    case Holding => true
    case ClearWait(_, r) =>
      if s.fields.ClearPending() then r < |s.log| && s.log[r] == Requested(t) && OnlyDrops(s.log, r, |s.log|)
      else QueryPrefix(s.log, t, r, s.lastCleared, |s.log|)
    case QueryWrite(r, c) => QueryPrefix(s.log, t, r, c, |s.log|)
    case QueryRead(r, c, w) =>
      w < |s.log| && QueryPrefix(s.log, t, r, c, w) && s.log[w] == Wrote(t, true, c) && OnlyDrops(s.log, w, |s.log|)
  }

  ghost predicate LockInv(s: State) {
    && (forall t: Tid :: s.Pc(t) != Idle <==> s.owner == Some(t))
    && s.fields.completed <= s.fields.requested <= s.fields.completed + 1
    && (s.fields.ClearPending() && s.fields.Open() ==> s.owner.Some? && s.Pc(s.owner.value).ClearWait?)
    && (forall t: Tid :: s.Pc(t).QueryWrite? || s.Pc(t).QueryRead? ==> !s.fields.ClearPending())
  }

  ghost predicate Inv(s: State) {
    BytesInv(s) && DataInv(s) && LogInv(s.log) && LockInv(s) && (s.owner.Some? ==> PcInv(s, s.owner.value))
  }

  // ------------------------------------------------------------------ every step keeps it

  lemma {:induction false} BytesCleared(s: State, late: seq<byte>, later: seq<byte>)
    requires BytesInv(s) && s.reader.InHand? && s.fields.ClearPending()
    ensures BytesInv(DrainStep(s, late, later))
  {
    var s' := DrainStep(s, late, later);
    TilesSnoc(s.log, Cleared(s.head, s'.head, s'.fields.discarded));
    assert |s.arrived[s.head..]| == |s.fields.buffer| + |s.reader.chunk| + |s.osQueue|;
    assert s'.arrived[s'.head..] == later;
  }

  lemma {:induction false} BytesAbsorbed(s: State)
    requires BytesInv(s) && s.reader.InHand? && !s.fields.ClearPending()
    ensures BytesInv(DrainStep(s, [], []))
  {
    var s' := DrainStep(s, [], []);
    var grown := s.fields.buffer + s.reader.chunk;
    var excess := Excess(|grown|);
    if excess > 0 { TilesSnoc(s.log, Dropped(s.head, s'.head)); }
    assert s.arrived[s.head..] == grown + s.osQueue;
    assert s.arrived[s'.head..] == s.arrived[s.head..][excess..] == grown[excess..] + s.osQueue;
  }

  lemma {:induction false} BytesHanded(s: State, e: Event, n: nat)
    requires BytesInv(s) && n <= |s.fields.buffer|
    requires e.Consumes() && FateOf(e) == ToCaller && e.from == s.head && e.to == s.head + n
    ensures BytesInv(s.Note(e).Hand(n))
  {
    TilesSnoc(s.log, e);
    assert s.arrived[s.head + n..] == s.arrived[s.head..][n..];
  }

  lemma {:induction false} BytesRead(s: State, t: Tid, r: Attempt)
    requires BytesInv(s) && (r.Taken? ==> r.count <= |s.fields.buffer|)
    ensures BytesInv(ReadStep(s, t, r))
  {
    if r.Taken? {
      var pc := s.Pc(t);
      var data := s.fields.buffer[..r.count];
      BytesHanded(s, if pc.QueryRead? then Reply(t, s.head, s.head + r.count, data, pc.requested, pc.cleared, pc.wrote)
                     else Delivered(t, s.head, s.head + r.count, data), r.count);
    }
  }

  lemma {:induction false} BytesNoted(s: State, e: Event)
    requires BytesInv(s) && !e.Consumes()
    ensures BytesInv(s.Note(e))
  {
    TilesSnoc(s.log, e);
  }

  /** Steps that move no byte past the buffer's ends and log nothing. */
  lemma {:induction false} BytesQuiet(s: State, s': State)
    requires BytesInv(s)
    requires s'.log == s.log && s'.head == s.head && s'.arrived == s.arrived
    requires s'.fields.buffer == s.fields.buffer && s'.fields.dropped == s.fields.dropped
    requires s'.reader.Chunk() + s'.osQueue == s.reader.Chunk() + s.osQueue
    ensures BytesInv(s')
  {
    assert s.fields.buffer + s.reader.Chunk() + s.osQueue == s.fields.buffer + (s.reader.Chunk() + s.osQueue);
    assert s'.fields.buffer + s'.reader.Chunk() + s'.osQueue == s'.fields.buffer + (s'.reader.Chunk() + s'.osQueue);
  }

  lemma {:induction false} BytesLogged(s: State, step: Step)
    requires BytesInv(s) && Enabled(s, step)
    requires step.ExpectLine? || step.PlainWrite? || step.ClearRequest? || step.QuerySends?
    ensures BytesInv(Do(s, step))
  {
    match step
    case ExpectLine(t) =>
      var n := FirstLine(s.fields.buffer).value;
      BytesHanded(s, Delivered(t, s.head, s.head + n, s.fields.buffer[..n]), n);
    case PlainWrite(t) => BytesNoted(s, Wrote(t, false, 0));
    case ClearRequest(t, _) => BytesNoted(s, Requested(t));
    case QuerySends(t) => BytesNoted(s, Wrote(t, true, s.Pc(t).cleared));
  }

  lemma {:induction false} BytesStep(s: State, step: Step)
    requires BytesInv(s) && Enabled(s, step)
    ensures BytesInv(Do(s, step))
  {
    match step
    case Arrive(bytes) =>
      assert (s.arrived + bytes)[s.head..] == s.arrived[s.head..] + bytes;
    case DrainRegion(late, later) =>
      if s.fields.ClearPending() { BytesCleared(s, late, later); } else { BytesAbsorbed(s); }
    case ReadPass(t, maxBytes, until, expired) =>
      var max := if s.Pc(t).QueryRead? then 4096 else maxBytes;
      BytesRead(s, t, ReadAttempt(s.fields, max, until, expired));
    case ExpectLine(t) => BytesLogged(s, step);
    case PlainWrite(t) => BytesLogged(s, step);
    case ClearRequest(t, _) => BytesLogged(s, step);
    case QuerySends(t) => BytesLogged(s, step);
    case _ => BytesQuiet(s, Do(s, step));
  }

  lemma {:induction false} HistoryGrows(s: State, step: Step)
    requires Enabled(s, step)
    ensures s.arrived <= Do(s, step).arrived
  {
    if step.DrainRegion? {
      assert s.arrived + step.late + step.later == s.arrived + (step.late + step.later);
    }
  }

  lemma {:induction false} DataStep(s: State, step: Step)
    requires BytesInv(s) && DataInv(s) && Enabled(s, step)
    ensures DataInv(Do(s, step))
  {
    StepAppends(s, step);
    HistoryGrows(s, step);
    var s' := Do(s, step);
    forall k | 0 <= k < |s'.log| ensures EventTrue(s'.log[k], s'.arrived) {
      if k < |s.log| {
        assert s'.log[k] == s.log[k];
        assert EventTrue(s.log[k], s.arrived);
      } else {
        NewEventTrue(s, step);
      }
    }
  }

  lemma {:induction false} NewEventTrue(s: State, step: Step)
    requires BytesInv(s) && Enabled(s, step) && |Do(s, step).log| > |s.log|
    ensures EventTrue(Do(s, step).log[|s.log|], Do(s, step).arrived)
  {
    if step.ReadPass? || step.ExpectLine? {
      var e := Do(s, step).log[|s.log|];
      assert e.from == s.head <= e.to && e.data == s.fields.buffer[..e.to - e.from];
      HeadOfHistory(s, e.to - e.from);
    }
  }

  lemma {:induction false} HeadOfHistory(s: State, n: nat)
    requires BytesInv(s) && n <= |s.fields.buffer|
    ensures s.head + n <= |s.arrived| && s.fields.buffer[..n] == s.arrived[s.head..s.head + n]
  {
    var tail := s.arrived[s.head..];
    assert |tail| >= n;
    assert tail[..n] == s.fields.buffer[..n];
  }

  /** Steps of the reader and of the outside world never touch the lock or a thread's place. */
  lemma {:induction false} LockWorld(s: State, step: Step)
    requires LockInv(s) && Enabled(s, step)
    requires step.Arrive? || step.SerialRead? || step.DrainRegion? || step.ReaderFails? || step.CloseSession?
    ensures LockInv(Do(s, step))
  {
    var s' := Do(s, step);
    assert s'.pcs == s.pcs && s'.owner == s.owner;
    assert forall t: Tid :: s'.Pc(t) == s.Pc(t);
  }

  /** A thread's own step moves only that thread. */
  lemma {:induction false} LockThread(s: State, step: Step)
    requires LockInv(s) && Enabled(s, step)
    requires !(step.Arrive? || step.SerialRead? || step.DrainRegion? || step.ReaderFails? || step.CloseSession?)
    ensures LockInv(Do(s, step))
  {
    var s' := Do(s, step);
    assert forall t: Tid :: t != step.tid ==> s'.Pc(t) == s.Pc(t);
  }

  lemma {:induction false} LockStep(s: State, step: Step)
    requires LockInv(s) && Enabled(s, step)
    ensures LockInv(Do(s, step))
  {
    if step.Arrive? || step.SerialRead? || step.DrainRegion? || step.ReaderFails? || step.CloseSession? {
      LockWorld(s, step);
    } else {
      LockThread(s, step);
    }
  }

  /** A step appends at most one event. */
  lemma {:induction false} StepAppends(s: State, step: Step)
    requires Enabled(s, step)
    ensures s.log <= Do(s, step).log && |Do(s, step).log| <= |s.log| + 1
  {
  }

  /** Events already in the log keep their freshness when the log grows. */
  lemma {:induction false} LogGrows(log: seq<Event>, e: Event)
    requires LogInv(log)
    requires e.Reply? ==> Fresh(log + [e], |log|)
    requires e.Wrote? ==> WriteAcknowledged(log + [e], |log|)
    ensures LogInv(log + [e])
  {
    var log' := log + [e];
    forall k | 0 <= k < |log'| && log'[k].Reply? ensures Fresh(log', k) {
      if k < |log| { assert Fresh(log, k); }
    }
    forall k | 0 <= k < |log'| && log'[k].Wrote? ensures WriteAcknowledged(log', k) {
      if k < |log| { assert WriteAcknowledged(log, k); }
    }
  }

  lemma {:induction false} LogStep(s: State, step: Step)
    requires Inv(s) && Enabled(s, step)
    ensures LogInv(Do(s, step).log)
  {
    StepAppends(s, step);
    var s' := Do(s, step);
    if |s'.log| > |s.log| {
      var e := s'.log[|s.log|];
      assert s'.log == s.log + [e];
      if e.Reply? {
        ReplyIsFresh(s, e);
      } else if e.Wrote? && e.inQuery {
        assert s.owner == Some(e.tid) && PcInv(s, e.tid);
      }
      LogGrows(s.log, e);
    } else {
      assert s'.log == s.log;
    }
  }

  lemma {:induction false} ReplyIsFresh(s: State, e: Event)
    requires Inv(s) && e.Reply? && e.from == s.head
    requires s.Pc(e.tid) == QueryRead(e.requested, e.cleared, e.wrote)
    ensures Fresh(s.log + [e], |s.log|)
  {
    assert s.owner == Some(e.tid) && PcInv(s, e.tid);
    ReachGrows(s.log, e.cleared);
  }

  lemma {:induction false} ReachGrows(log: seq<Event>, i: nat)
    requires Tiles(log) && i < |log| && log[i].Consumes()
    ensures log[i].to <= Reach(log)
  {
    if i < |log| - 1 { ReachGrows(log[..|log| - 1], i); }
  }

  /** A thread that is not running keeps its place when the log does not change, or only
      overflow is added. */
  lemma {:induction false} PcFramed(s: State, s': State, t: Tid)
    requires PcInv(s, t) && s'.Pc(t) == s.Pc(t)
    requires s'.lastCleared == s.lastCleared && s'.fields.ClearPending() == s.fields.ClearPending()
    requires s'.log == s.log || exists e: Event :: e.Dropped? && s'.log == s.log + [e]
    ensures PcInv(s', t)
  {
  }

  lemma {:induction false} PcDrain(s: State, late: seq<byte>, later: seq<byte>, t: Tid)
    requires LockInv(s) && s.reader.InHand? && s.owner == Some(t) && PcInv(s, t)
    ensures PcInv(DrainStep(s, late, later), t)
  {
    var s' := DrainStep(s, late, later);
    if s.fields.ClearPending() {
      assert s'.log == s.log + [s'.log[|s.log|]];
    } else if Excess(|s.fields.buffer + s.reader.chunk|) == 0 {
      PcFramed(s, s', t);
    } else {
      assert s'.log == s.log + [Dropped(s.head, s'.head)];
      PcFramed(s, s', t);
    }
  }

  lemma {:induction false} PcStep(s: State, step: Step)
    requires Inv(s) && Enabled(s, step) && Do(s, step).owner.Some?
    ensures PcInv(Do(s, step), Do(s, step).owner.value)
  {
    var s' := Do(s, step);
    var t := s'.owner.value;
    match step
    case DrainRegion(late, later) => PcDrain(s, late, later, t);
    case Acquire(_) =>
    case Arrive(_) => PcFramed(s, s', t);
    case SerialRead(_) => PcFramed(s, s', t);
    case ReaderFails => PcFramed(s, s', t);
    case CloseSession => PcFramed(s, s', t);
    case _ => PcOwn(s, step, t);
  }

  /** The steps only the lock's owner can take. */
  lemma {:induction false} PcOwn(s: State, step: Step, t: Tid)
    requires Inv(s) && Enabled(s, step) && s.owner == Some(t) && Do(s, step).owner == Some(t)
    requires !step.DrainRegion? && !step.Acquire? && !step.Arrive? && !step.SerialRead?
             && !step.ReaderFails? && !step.CloseSession?
    ensures PcInv(Do(s, step), t)
  {
    assert s.Pc(step.tid) != Idle;
    assert step.tid == t;
    StepAppends(s, step);
    var s' := Do(s, step);
    match step
    case ClearRequest(_, _) =>
      assert s'.log == s.log + [Requested(t)];
    case QuerySends(_) =>
      assert s'.log == s.log + [Wrote(t, true, s.Pc(t).cleared)];
    case _ =>
  }

  lemma {:induction false} InvHolds(s: State, run: seq<Step>)
    requires Inv(s) && CanRun(s, run)
    ensures Inv(After(s, run))
    decreases |run|
  {
    if run != [] {
      BytesStep(s, run[0]);
      DataStep(s, run[0]);
      LockStep(s, run[0]);
      LogStep(s, run[0]);
      if Do(s, run[0]).owner.Some? { PcStep(s, run[0]); }
      InvHolds(Do(s, run[0]), run[1..]);
    }
  }

  // ------------------------------------------------------------------ main results

  /** In every interleaving the buffer is exactly what follows the consumed bytes in the
      history, never over the limit; consumed segments tile the history in order; and every
      byte is accounted for. `bytes_dropped` is exactly the overflow. */
  lemma {:induction false} EveryByteIsAccountedFor(run: seq<Step>)
    requires CanRun(START, run)
    ensures var s := After(START, run);
      && |s.fields.buffer| <= BUFFER_LIMIT
      && s.head <= |s.arrived|
      && s.fields.buffer + s.reader.Chunk() + s.osQueue == s.arrived[s.head..]
      && Tiles(s.log) && Reach(s.log) == s.head
      && (forall k :: 0 <= k < |s.log| ==> EventTrue(s.log[k], s.arrived))
      && s.fields.dropped == Total(s.log, Overflowed)
      && |s.arrived| == Total(s.log, ToCaller) + Total(s.log, Overflowed) + Total(s.log, Discarded)
                        + |s.fields.buffer| + |s.reader.Chunk()| + |s.osQueue|
  {
    InvHolds(START, run);
    var s := After(START, run);
    TilesAccount(s.log);
    assert |s.arrived[s.head..]| == |s.fields.buffer| + |s.reader.Chunk()| + |s.osQueue|;
  }

  /** In every interleaving each query wrote only after its own clear was acknowledged, its
      reply holds only bytes from after the acknowledgement, no other caller consumed any byte
      in between, and at most one clear is outstanding. */
  lemma {:induction false} QueriesAreFresh(run: seq<Step>)
    requires CanRun(START, run)
    ensures var s := After(START, run);
      && (forall k :: 0 <= k < |s.log| && s.log[k].Reply? ==> Fresh(s.log, k))
      && (forall k :: 0 <= k < |s.log| && s.log[k].Wrote? ==> WriteAcknowledged(s.log, k))
      && (s.fields.requested == s.fields.completed || s.fields.requested == s.fields.completed + 1)
  {
    InvHolds(START, run);
  }

  /** At any point of any run, a pass of a read hands out exactly what it is for: as an event of its
      thread, a query's reply of at most 4096 bytes among them, and off the buffer's front. */
  lemma {:induction false} ReadsHandOut(run: seq<Step>, t: Tid, maxBytes: int, until: Option<seq<byte>>, expired: bool)
    returns (r: Attempt, data: seq<byte>)
    requires CanRun(START, run) && Enabled(After(START, run), ReadPass(t, maxBytes, until, expired))
    ensures var s := After(START, run);
            var (s', pc) := (Do(s, ReadPass(t, maxBytes, until, expired)), s.Pc(t));
            && ReadIs(s.fields.Open(), s.fields.buffer, if pc.QueryRead? then 4096 else maxBytes, until, expired, r, data)
            && s.fields.buffer == data + s'.fields.buffer
            && (if r.Wait? then s' == s
                else s'.Pc(t) == Holding
                     && s'.log == s.log + if r.Raise? then []
                                          else if pc.QueryRead? then
                                            [Reply(t, s.head, s.head + |data|, data, pc.requested, pc.cleared, pc.wrote)]
                                          else [Delivered(t, s.head, s.head + |data|, data)])
  {
    hide ReadAttempt, ReadIs;
    var s := After(START, run);
    var max := if s.Pc(t).QueryRead? then 4096 else maxBytes;
    ReadsExactly(s.fields, max, until, expired);
    r := ReadAttempt(s.fields, max, until, expired);
    data := if r.Taken? then s.fields.buffer[..r.count] else [];
    assert s.fields.buffer == data + s.fields.buffer[|data|..];
    assert s.log + [] == s.log;
  }

  lemma {:induction false} BytesHold(run: seq<Step>)
    requires CanRun(START, run)
    ensures BytesInv(After(START, run))
  {
    InvHolds(START, run);
  }

  /** So a read that was not out of time ends where the whole history says it should: through the first
      terminator among the bytes not yet consumed, even those still to come, or cut at the room. */
  lemma {:induction false} ReadsFollowTheHistory(run: seq<Step>, t: Tid, maxBytes: int, until: seq<byte>, expired: bool, n: nat)
    requires CanRun(START, run) && Enabled(After(START, run), ReadPass(t, maxBytes, Some(until), expired))
    requires var s := After(START, run); ThroughFirst(s.fields.buffer, until, n) && s.fields.Open()
    ensures var s := After(START, run);
            var room := Room(if s.Pc(t).QueryRead? then 4096 else maxBytes);
            var events := Do(s, ReadPass(t, maxBytes, Some(until), expired)).log[|s.log|..];
            && s.head <= |s.arrived| && ThroughFirst(s.arrived[s.head..], until, n)
            && |events| == 1 && (events[0].Reply? || events[0].Delivered?)
            && events[0].data == s.arrived[s.head..][..Min(n, room)]
  {
    hide Do, EndsWith, Inv;
    BytesHold(run);
    var s := After(START, run);
    var r, data := ReadsHandOut(run, t, maxBytes, Some(until), expired);
    assert r.Taken? && data == s.fields.buffer[..Min(n, Room(if s.Pc(t).QueryRead? then 4096 else maxBytes))];
    var more := s.reader.Chunk() + s.osQueue;
    Regroup(s.fields.buffer, s.reader.Chunk(), s.osQueue);
    ThroughIsStable(s.fields.buffer, until, n, more);
  }

  /** At any point of any run, what `expect` consumes next is one whole line off the buffer's front, and
      the first line of everything still to be consumed. */
  lemma {:induction false} LinesAreHandedOut(run: seq<Step>, t: Tid) returns (line: seq<byte>)
    requires CanRun(START, run) && Enabled(After(START, run), ExpectLine(t))
    ensures var s := After(START, run);
            var s' := Do(s, ExpectLine(t));
            && IsLine(line) && s.fields.buffer == line + s'.fields.buffer
            && s'.log == s.log + [Delivered(t, s.head, s.head + |line|, line)]
            && s.head <= |s.arrived| && line <= s.arrived[s.head..] && FirstLine(s.arrived[s.head..]) == Some(|line|)
  {
    hide FirstLine, IsLine, Inv;
    BytesHold(run);
    var s := After(START, run);
    FirstLineIs(s.fields.buffer);
    line := s.fields.buffer[..FirstLine(s.fields.buffer).value];
    var more := s.reader.Chunk() + s.osQueue;
    Regroup(s.fields.buffer, s.reader.Chunk(), s.osQueue);
    LineEndIsStable(s.fields.buffer, more);
  }

  /** At any point of any run, a pending clear discards every byte received by then, and reports all but
      those that came while it was at it; what comes after is left for the callers. */
  lemma {:induction false} ClearsDiscardEverything(run: seq<Step>, late: seq<byte>, later: seq<byte>)
    requires CanRun(START, run) && Enabled(After(START, run), DrainRegion(late, later))
    requires After(START, run).fields.ClearPending()
    ensures var s := After(START, run);
            var s' := Do(s, DrainRegion(late, later));
            && s.head <= |s.arrived| && s'.fields.buffer == [] && s'.reader == Polling && s'.osQueue == later
            && !s'.fields.ClearPending() && s'.fields.discarded == |s.arrived| - s.head
            && s'.arrived == s.arrived + late + later
            && s'.log == s.log + [Cleared(s.head, |s.arrived| + |late|, |s.arrived| - s.head)]
  {
    BytesHold(run);
  }

  /** Two segments handed out, dropped or cleared at different times never overlap, and the
      later one lies further on in the history. */
  lemma {:induction false} SegmentsAreDisjointAndInOrder(log: seq<Event>, i: nat, j: nat)
    requires Tiles(log) && i < j < |log| && log[i].Consumes() && log[j].Consumes()
    ensures log[i].from <= log[i].to <= log[j].from <= log[j].to
  {
    var before := log[..|log| - 1];
    if j < |before| {
      SegmentsAreDisjointAndInOrder(before, i, j);
    } else {
      ReachGrows(before, i);
      TilesAt(before, i);
    }
  }

  lemma {:induction false} TilesAt(log: seq<Event>, i: nat)
    requires Tiles(log) && i < |log| && log[i].Consumes()
    ensures log[i].from <= log[i].to
  {
    if i < |log| - 1 { TilesAt(log[..|log| - 1], i); }
  }
}
