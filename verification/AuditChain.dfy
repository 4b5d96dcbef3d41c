/**
 The audit log (audit.py): one JSON object a line, each carrying the hash of the line
 before it, extended by several server processes that each cache the chain's head.

 `h` stands for SHA-256 over the previous hash and the record's JSON; the proofs that
 need it assume only that it is injective and never yields the genesis value.
*/
module AuditChain {
  import opened Wrappers

  const GENESIS: string := "0000000000000000000000000000000000000000000000000000000000000000"

  /** A JSON value: a string, or anything else. Objects print with sorted keys, so an object is
      its map of fields. */
  datatype Json = Str(s: string) | Other(token: string)
  type Object = map<string, Json>
  type Hash = (string, Object) -> string

  /** A line of the file as its readers classify it. */
  datatype Line = Blank | NotUtf8 | NotObject | Record(fields: Object)

  /** The file: its terminated lines, and the text of an interrupted write after the last one. */
  datatype File = File(lines: seq<Line>, torn: Option<Line>, size: nat)
  {
    function All(): seq<Line> { if torn.Some? then lines + [torn.value] else lines }

    /** An append goes after whatever is there: after a torn write it lands on the same line,
        which is then no JSON object. */
    function Append(line: Line, bytes: nat): File {
      File(lines + [if torn.Some? then NotObject else line], None, size + bytes)
    }
  }

  ghost predicate Collisionless(h: Hash) {
    && (forall p, e, p', e' :: h(p, e) == h(p', e') ==> p == p' && e == e')
    && (forall p, e :: h(p, e) != GENESIS)
  }

  // ------------------------------------------------------------------ reading the head

  /** The last "hash" value in the file, skipping what does not parse. */
  function LastHash(lines: seq<Line>): Json {
    if lines == [] then Str(GENESIS)
    else
      var last := lines[|lines| - 1];
      if last.Record? && "hash" in last.fields then last.fields["hash"] else LastHash(lines[..|lines| - 1])
  }

  /** `_read_head`; a line that is not UTF-8 makes the read itself fail. */
  function HeadOf(lines: seq<Line>): Option<string> {
    if NotUtf8 in lines then None
    else Some(if LastHash(lines).Str? then LastHash(lines).s else GENESIS)
  }

  method ReadHead(lines: seq<Line>) returns (r: Option<string>)
    ensures r == HeadOf(lines)
  {
    var head := Str(GENESIS);
    for i := 0 to |lines|
      invariant head == LastHash(lines[..i]) && NotUtf8 !in lines[..i]
    {
      assert lines[..i + 1][..i] == lines[..i];
      match lines[i] {
        case NotUtf8 => return None;
        case Record(fields) =>
          if "hash" in fields {
            head := fields["hash"];
          }
        case _ =>
      }
    }
    assert lines[..|lines|] == lines;
    return Some(if head.Str? then head.s else GENESIS);
  }

  // ------------------------------------------------------------------ verifying

  datatype Reason = BadText | NotChained | DoesNotFollow
  datatype Report = Intact(records: nat, head: string) | Broken(records: nat, line: nat, reason: Reason)

  /** One record against the hash before it: the new hash, or why it does not follow. */
  datatype Step = Next(hash: string) | Same | Bad(reason: Reason)

  function CheckLine(h: Hash, previous: string, line: Line): Step {
    match line
    case NotUtf8 => Bad(BadText)
    case Blank => Same
    case NotObject => Bad(NotChained)
    case Record(fields) =>
      if "hash" !in fields || !fields["hash"].Str? then Bad(NotChained)
      else
        var entry := fields - {"hash"};
        if "prev" !in entry || entry["prev"] != Str(previous) || h(previous, entry) != fields["hash"].s
        then Bad(DoesNotFollow)
        else Next(fields["hash"].s)
  }

  /** `verify`, with the chain's head when it is intact. */
  function Verify(h: Hash, lines: seq<Line>): Report {
    if lines == [] then Intact(0, GENESIS)
    else
      match Verify(h, lines[..|lines| - 1])
      case Intact(n, previous) =>
        (match CheckLine(h, previous, lines[|lines| - 1])
         case Same => Intact(n, previous)
         case Next(hash) => Intact(n + 1, hash)
         case Bad(reason) => Broken(n, |lines|, reason))
      case broken => broken
  }

  method VerifyLoop(h: Hash, lines: seq<Line>) returns (r: Report)
    ensures r == Verify(h, lines)
  {
    var previous, count := GENESIS, 0;
    for i := 0 to |lines|
      invariant Verify(h, lines[..i]) == Intact(count, previous)
    {
      assert lines[..i + 1][..i] == lines[..i];
      match CheckLine(h, previous, lines[i]) {
        case Bad(reason) =>
          BreaksStay(h, lines, i + 1);
          return Broken(count, i + 1, reason);
        case Same =>
        case Next(hash) =>
          previous, count := hash, count + 1;
      }
    }
    assert lines[..|lines|] == lines;
    return Intact(count, previous);
  }

  /** The verdict on a prefix that is broken is the verdict on the whole. */
  lemma {:induction false} BreaksStay(h: Hash, lines: seq<Line>, i: nat)
    requires i <= |lines| && Verify(h, lines[..i]).Broken?
    ensures Verify(h, lines) == Verify(h, lines[..i])
    decreases |lines|
  {
    if i < |lines| {
      var before := lines[..|lines| - 1];
      assert before[..i] == lines[..i];
      BreaksStay(h, before, i);
    } else {
      assert lines[..i] == lines;
    }
  }

  /** Line i follows the ones before it. */
  ghost predicate Follows(h: Hash, lines: seq<Line>, i: nat)
    requires i < |lines|
  {
    lines[i] == Blank
    || (var previous := LastHash(lines[..i]);
        lines[i].Record? && "hash" in lines[i].fields && "prev" in lines[i].fields
        && previous.Str? && lines[i].fields["prev"] == previous
        && lines[i].fields["hash"] == Str(h(previous.s, lines[i].fields - {"hash"})))
  }

  function RecordsOf(lines: seq<Line>): seq<Object> {
    if lines == [] then []
    else
      var last := lines[|lines| - 1];
      RecordsOf(lines[..|lines| - 1]) + if last.Record? then [last.fields] else []
  }

  lemma {:induction false} IntactHead(h: Hash, lines: seq<Line>)
    requires Verify(h, lines).Intact?
    ensures HeadOf(lines) == Some(Verify(h, lines).head)
    ensures LastHash(lines) == Str(Verify(h, lines).head)
    ensures |RecordsOf(lines)| == Verify(h, lines).records
  {
    hide CheckLine;
    if lines != [] {
      var (before, line) := (lines[..|lines| - 1], lines[|lines| - 1]);
      IntactHead(h, before);
      IntactStep(h, before, line);
      assert lines == before + [line];
    }
  }

  lemma {:induction false} IntactStep(h: Hash, before: seq<Line>, line: Line)
    requires var r := Verify(h, before);
             r.Intact? && HeadOf(before) == Some(r.head) && LastHash(before) == Str(r.head) && |RecordsOf(before)| == r.records
    requires !CheckLine(h, Verify(h, before).head, line).Bad?
    ensures var (r, lines) := (Verify(h, before + [line]), before + [line]);
            r.Intact? && HeadOf(lines) == Some(r.head) && LastHash(lines) == Str(r.head) && |RecordsOf(lines)| == r.records
  {
    hide Verify, CheckLine;
    CheckedLine(h, Verify(h, before).head, line);
    VerifyToBack(h, before, line);
    assert (before + [line])[..|before|] == before;
  }

  /** A line that follows is blank, or a record that holds the new hash. */
  lemma {:induction false} CheckedLine(h: Hash, previous: string, line: Line)
    requires !CheckLine(h, previous, line).Bad?
    ensures line == Blank || (line.Record? && "hash" in line.fields)
    ensures CheckLine(h, previous, line) ==
            if line == Blank then Same else Next(line.fields["hash"].s)
    ensures line.Record? ==> line.fields["hash"].Str?
  {
  }

  /** Why a line does not follow: not text, no object with a hash, or not the hash of what is before it. */
  predicate Explains(line: Line, reason: Reason) {
    match reason
    case BadText => line == NotUtf8
    case NotChained => line == NotObject || (line.Record? && !("hash" in line.fields && line.fields["hash"].Str?))
    case DoesNotFollow => line.Record? && "hash" in line.fields && line.fields["hash"].Str?
  }

  /** `verify` reports exactly the first line that does not follow, with the number of records
      before it; and reports intact exactly when every line follows. */
  lemma {:induction false} VerifyFindsFirstBreak(h: Hash, lines: seq<Line>)
    ensures match Verify(h, lines)
            case Intact(n, _) => n == |RecordsOf(lines)| && forall i :: 0 <= i < |lines| ==> Follows(h, lines, i)
            case Broken(n, line, reason) =>
              1 <= line <= |lines| && !Follows(h, lines, line - 1) && Explains(lines[line - 1], reason)
              && (forall i :: 0 <= i < line - 1 ==> Follows(h, lines, i))
              && n == |RecordsOf(lines[..line - 1])|
  {
    if lines != [] {
      var before := lines[..|lines| - 1];
      VerifyFindsFirstBreak(h, before);
      forall i | 0 <= i < |before| ensures Follows(h, lines, i) == Follows(h, before, i) {
        assert lines[..i] == before[..i];
      }
      if Verify(h, before).Intact? {
        IntactHead(h, before);
      } else {
        var line := Verify(h, before).line;
        assert lines[..line - 1] == before[..line - 1];
      }
    }
  }

  /** Two logs that both verify and end in the same hash hold the same records. */
  lemma {:induction false} SameHeadSameRecords(h: Hash, a: seq<Line>, b: seq<Line>)
    requires Collisionless(h) && Verify(h, a).Intact? && Verify(h, b).Intact?
    requires Verify(h, a).head == Verify(h, b).head
    ensures RecordsOf(a) == RecordsOf(b)
    decreases |a| + |b|
  {
    if a != [] && a[|a| - 1] == Blank {
      SameHeadSameRecords(h, a[..|a| - 1], b);
    } else if b != [] && b[|b| - 1] == Blank {
      SameHeadSameRecords(h, a, b[..|b| - 1]);
    } else if a != [] && b != [] {
      SameHeadSameRecords(h, a[..|a| - 1], b[..|b| - 1]);
      var (x, y) := (a[|a| - 1].fields, b[|b| - 1].fields);
      assert x == (x - {"hash"})["hash" := x["hash"]];
      assert y == (y - {"hash"})["hash" := y["hash"]];
    }
  }

  lemma {:induction false} HeadIsLastRecord(h: Hash, lines: seq<Line>)
    requires Verify(h, lines).Intact?
    ensures var records := RecordsOf(lines);
            Str(Verify(h, lines).head) == if records == [] then Str(GENESIS)
                                          else if "hash" in records[|records| - 1] then records[|records| - 1]["hash"]
                                          else Other("")
  {
    if lines != [] { HeadIsLastRecord(h, lines[..|lines| - 1]); }
  }

  /** Logs that verify have one head exactly when they hold the same records. */
  lemma {:induction false} SameHeadIffSameRecords(h: Hash, a: seq<Line>, b: seq<Line>)
    requires Collisionless(h) && Verify(h, a).Intact? && Verify(h, b).Intact?
    ensures Verify(h, a).head == Verify(h, b).head <==> RecordsOf(a) == RecordsOf(b)
  {
    HeadIsLastRecord(h, a);
    HeadIsLastRecord(h, b);
    if Verify(h, a).head == Verify(h, b).head { SameHeadSameRecords(h, a, b); }
  }

  // ------------------------------------------------------------------ appending

  /** The payload before its own hash is added; the caller's fields come last and win. */
  function Payload(base: Object, previous: string, fields: Object): Object {
    base["prev" := Str(previous)] + fields
  }

  function Chained(h: Hash, base: Object, previous: string, fields: Object): Object {
    var payload := Payload(base, previous, fields);
    payload["hash" := Str(h(previous, payload))]
  }

  /** The caller's fields do not disturb the chain: no "hash", and no "prev" but the right one. */
  predicate Harmless(previous: string, fields: Object) {
    "hash" !in fields && ("prev" in fields ==> fields["prev"] == Str(previous))
  }

  /** A record just built follows its predecessor exactly when the caller's fields are harmless. */
  lemma {:induction false} ChainedFollowsIffHarmless(h: Hash, base: Object, previous: string, fields: Object)
    requires Collisionless(h) && "hash" !in base
    ensures var line := Record(Chained(h, base, previous, fields));
            (CheckLine(h, previous, line) == Next(h(previous, Payload(base, previous, fields))))
            <==> Harmless(previous, fields)
    ensures !Harmless(previous, fields) ==> CheckLine(h, previous, Record(Chained(h, base, previous, fields))).Bad?
  {
    var payload := Payload(base, previous, fields);
    var chained := Chained(h, base, previous, fields);
    var entry := chained - {"hash"};
    if "hash" in fields {
      assert "hash" in payload && "hash" !in entry;
    } else {
      assert entry == payload;
    }
  }

  /** How the write itself ends. A torn write leaves part of the line behind. */
  datatype Outcome = Written | NothingWritten | FailedAfterWrite | Torn(fragment: Line)

  type LogId = nat

  /** The cache's key: which file, at which size. */
  datatype Key = Key(id: LogId, size: nat)
  datatype Cache = Cache(head: Option<string>, key: Option<Key>)

  const FRESH_CACHE := Cache(None, None)

  /** `_Chain.tail`: a cached head counts only for this very file at this very size. Reading the
      file again replaces the head and leaves the key as it was, even when it names another file. */
  function Tail(c: Cache, id: LogId, f: File): Option<string> {
    if c.head.None? || c.key != Some(Key(id, f.size)) then HeadOf(f.All()) else c.head
  }

  datatype Done = Done(file: File, cache: Cache, ok: bool)

  /** `record` on one log under its lock. */
  function RecordIn(h: Hash, id: LogId, f: File, c: Cache, base: Object, fields: Object, bytes: nat, outcome: Outcome): Done {
    var previous := Tail(c, id, f);
    if previous.None? then Done(f, c, false)
    else
      var c' := Cache(previous, c.key);
      var line := Record(Chained(h, base, previous.value, fields));
      var digest := h(previous.value, Payload(base, previous.value, fields));
      match outcome
      case Written =>
        var f' := f.Append(line, bytes);
        Done(f', Cache(Some(digest), Some(Key(id, f'.size))), true)
      case NothingWritten => Done(f, c', false)
      case FailedAfterWrite => Done(f.Append(line, bytes), c', false)
      case Torn(fragment) =>
        Done(File(f.lines, Some(if f.torn.Some? then NotObject else fragment), f.size + bytes), c', false)
  }

  /** The record that lands, whole and as the last line: the caller's fields, the base where the caller has
      no field of that name, the head it follows, and the hash of all that; and nothing else. */
  ghost predicate Carries(h: Hash, r: Object, base: Object, previous: string, fields: Object) {
    && r.Keys == base.Keys + fields.Keys + {"prev", "hash"}
    && (forall k :: k in fields && k != "hash" ==> r[k] == fields[k])
    && (forall k :: k in base && k !in fields && k != "prev" && k != "hash" ==> r[k] == base[k])
    && ("prev" !in fields ==> r["prev"] == Str(previous))
    && ("hash" !in fields ==> r["hash"] == Str(h(previous, r - {"hash"})))
  }

  lemma {:induction false} LandedRecord(h: Hash, id: LogId, f: File, c: Cache, base: Object, fields: Object, bytes: nat, outcome: Outcome)
    requires "hash" !in base && f.torn.None?
    ensures var (d, previous) := (RecordIn(h, id, f, c, base, fields, bytes, outcome), Tail(c, id, f));
            && (d.ok <==> previous.Some? && outcome == Written)
            && (previous.Some? && outcome in {Written, FailedAfterWrite} ==>
                  |d.file.lines| == |f.lines| + 1 && d.file.lines[..|f.lines|] == f.lines && d.file.torn.None?
                  && d.file.lines[|f.lines|].Record? && Carries(h, d.file.lines[|f.lines|].fields, base, previous.value, fields))
            && (previous.None? || outcome == NothingWritten ==> d.file == f)
            && (d.ok ==> Tail(d.cache, id, d.file) == Some(h(previous.value, Payload(base, previous.value, fields))))
  {
    if Tail(c, id, f).Some? {
      var previous := Tail(c, id, f).value;
      var r := Chained(h, base, previous, fields);
      if "hash" !in fields { assert r - {"hash"} == Payload(base, previous, fields); }
    }
  }

  /** The module-level `_Chain` of one process, updated in place by each `record`. */
  class Chain {
    var head: Option<string>
    var key: Option<Key>

    function Value(): Cache
      reads this
    {
      Cache(head, key)
    }

    constructor ()
      ensures Value() == FRESH_CACHE
    {
      head, key := None, None;
    }

    method TailOf(id: LogId, f: File) returns (r: Option<string>)
      modifies this`head
      ensures r == Tail(old(Value()), id, f) && key == old(key)
      ensures head == if r.None? then old(head) else r
    {
      if head.None? || key != Some(Key(id, f.size)) {
        var read := ReadHead(f.All());
        if read.None? {
          return None;
        }
        head := read;
      }
      return head;
    }

    method RecordInto(h: Hash, id: LogId, f: File, base: Object, fields: Object, bytes: nat, outcome: Outcome)
      returns (f': File, ok: bool)
      modifies this
      ensures Done(f', Value(), ok) == RecordIn(h, id, f, old(Value()), base, fields, bytes, outcome)
    {
      var previous := TailOf(id, f);
      if previous.None? {
        return f, false;
      }
      var payload := Payload(base, previous.value, fields);
      var digest := h(previous.value, payload);
      var line := Record(payload["hash" := Str(digest)]);
      match outcome {
        case NothingWritten =>
          return f, false;
        case Torn(fragment) =>
          return File(f.lines, Some(if f.torn.Some? then NotObject else fragment), f.size + bytes), false;
        case FailedAfterWrite =>
          return f.Append(line, bytes), false;
        case Written =>
          f' := f.Append(line, bytes);
          head, key := Some(digest), Some(Key(id, f'.size));
          return f', true;
      }
    }
  }

  // ------------------------------------------------------------------ several processes, several logs

  datatype World = World(logs: map<LogId, File>, caches: map<nat, Cache>, landed: map<LogId, nat>)
  {
    function Log(id: LogId): File { if id in logs then logs[id] else File([], None, 0) }
    function CacheOf(p: nat): Cache { if p in caches then caches[p] else FRESH_CACHE }
    function Landed(id: LogId): nat { if id in landed then landed[id] else 0 }
  }

  const EMPTY_WORLD := World(map[], map[], map[])

  datatype Act =
    | Append(process: nat, id: LogId, base: Object, fields: Object, bytes: nat, outcome: Outcome)
    | Restart(process: nat)

  function Do(h: Hash, w: World, a: Act): World {
    match a
    case Restart(p) => w.(caches := w.caches[p := FRESH_CACHE])
    case Append(p, id, base, fields, bytes, outcome) =>
      var done := RecordIn(h, id, w.Log(id), w.CacheOf(p), base, fields, bytes, outcome);
      var grew := |done.file.lines| > |w.Log(id).lines|;
      World(w.logs[id := done.file], w.caches[p := done.cache],
            w.landed[id := w.Landed(id) + if grew then 1 else 0])
  }

  function Run(h: Hash, w: World, acts: seq<Act>): World
    decreases |acts|
  {
    if acts == [] then w else Run(h, Do(h, w, acts[0]), acts[1..])
  }

  /** Whole lines only, of at least one byte, with fields that keep to the caller's own names. */
  predicate Orderly(a: Act) {
    a.Append? ==> !a.outcome.Torn? && a.bytes > 0 && "hash" !in a.base && "hash" !in a.fields && "prev" !in a.fields
  }

  /** The log a cache is keyed to, if it is keyed to that log's current end. */
  function Current(w: World, c: Cache): Option<LogId> {
    if c.key.Some? && c.key.value.size == w.Log(c.key.value.id).size then Some(c.key.value.id) else None
  }

  /** A write that fails does no harm unless its process's cache is keyed to the current end of another
      log, with other records. */
  predicate Steady(w: World, a: Act) {
    a.Append? && a.outcome != Written ==>
      var keyed := Current(w, w.CacheOf(a.process));
      keyed.None? || keyed.value == a.id || RecordsOf(w.Log(keyed.value).lines) == RecordsOf(w.Log(a.id).lines)
  }

  predicate Allowed(h: Hash, w: World, acts: seq<Act>)
    decreases |acts|
  {
    acts == [] || (Orderly(acts[0]) && Steady(w, acts[0]) && Allowed(h, Do(h, w, acts[0]), acts[1..]))
  }

  ghost predicate CacheAgrees(w: World, c: Cache) {
    c.key.Some? ==>
      && c.key.value.size <= w.Log(c.key.value.id).size
      && (c.key.value.size == w.Log(c.key.value.id).size && c.head.Some? ==> c.head == HeadOf(w.Log(c.key.value.id).All()))
  }

  ghost predicate LogIntact(h: Hash, w: World, id: LogId) {
    var f := w.Log(id);
    f.torn.None? && Verify(h, f.lines).Intact? && Verify(h, f.lines).records == w.Landed(id)
  }

  ghost predicate Agreement(h: Hash, w: World) {
    && (forall p: nat :: CacheAgrees(w, w.CacheOf(p)))
    && (forall id: LogId :: LogIntact(h, w, id))
  }

  /** The head `record` chains onto is the head on disk, whichever process asks. */
  lemma {:induction false} TailIsDiskHead(h: Hash, w: World, p: nat, id: LogId)
    requires Agreement(h, w)
    ensures Verify(h, w.Log(id).lines).Intact?
    ensures Tail(w.CacheOf(p), id, w.Log(id)) == HeadOf(w.Log(id).All())
    ensures HeadOf(w.Log(id).All()) == Some(Verify(h, w.Log(id).lines).head)
  {
    assert CacheAgrees(w, w.CacheOf(p)) && LogIntact(h, w, id);
    IntactHead(h, w.Log(id).lines);
  }

  /** A record that lands keeps the log intact and one longer, and its hash is the new head. */
  lemma {:induction false} LandedKeepsIntact(h: Hash, f: File, base: Object, fields: Object, bytes: nat)
    requires Collisionless(h) && f.torn.None? && Verify(h, f.lines).Intact?
    requires "hash" !in base && Harmless(Verify(h, f.lines).head, fields)
    ensures var previous := Verify(h, f.lines).head;
            var f' := f.Append(Record(Chained(h, base, previous, fields)), bytes);
            Verify(h, f'.lines) == Intact(Verify(h, f.lines).records + 1, h(previous, Payload(base, previous, fields)))
  {
    var previous := Verify(h, f.lines).head;
    var line := Record(Chained(h, base, previous, fields));
    ChainedFollowsIffHarmless(h, base, previous, fields);
    assert (f.lines + [line])[..|f.lines|] == f.lines;
  }

  /** One orderly append, seen from the logs: none is broken, and only the one named may grow. */
  lemma {:induction false} AppendOnce(h: Hash, w: World, a: Act)
    requires Collisionless(h) && Agreement(h, w) && Orderly(a) && a.Append?
    ensures LogIntact(h, Do(h, w, a), a.id)
    ensures var (f, f') := (w.Log(a.id), Do(h, w, a).Log(a.id));
            f'.size >= f.size && (f' == f || f'.size > f.size) && (a.outcome == Written || f' == f || a.outcome == FailedAfterWrite)
    ensures forall id: LogId :: id != a.id ==> Do(h, w, a).Log(id) == w.Log(id)
  {
    hide Verify, HeadOf, LastHash;
    TailIsDiskHead(h, w, a.process, a.id);
    assert LogIntact(h, w, a.id);
    LandedKeepsIntact(h, w.Log(a.id), a.base, a.fields, a.bytes);
  }

  lemma {:induction false} LogAfter(h: Hash, w: World, a: Act, id: LogId)
    requires Collisionless(h) && Agreement(h, w) && Orderly(a)
    ensures LogIntact(h, Do(h, w, a), id)
  {
    assert LogIntact(h, w, id);
    if a.Append? && a.id == id { AppendOnce(h, w, a); }
  }

  /** A record that lands leaves its own hash cached under its own log. */
  lemma {:induction false} WriterAgrees(h: Hash, w: World, a: Act)
    requires Collisionless(h) && Agreement(h, w) && Orderly(a) && a.Append? && a.outcome == Written
    ensures CacheAgrees(Do(h, w, a), Do(h, w, a).CacheOf(a.process))
  {
    var w' := Do(h, w, a);
    TailIsDiskHead(h, w, a.process, a.id);
    assert LogIntact(h, w, a.id);
    LandedKeepsIntact(h, w.Log(a.id), a.base, a.fields, a.bytes);
    IntactHead(h, w'.Log(a.id).lines);
  }

  lemma {:induction false} HeadsAgreeIff(h: Hash, w: World, a: LogId, b: LogId)
    requires Collisionless(h) && Agreement(h, w)
    ensures HeadOf(w.Log(a).All()) == HeadOf(w.Log(b).All()) <==> RecordsOf(w.Log(a).lines) == RecordsOf(w.Log(b).lines)
  {
    TailIsDiskHead(h, w, 0, a);
    TailIsDiskHead(h, w, 0, b);
    SameHeadIffSameRecords(h, w.Log(a).lines, w.Log(b).lines);
  }

  /** A write that fails leaves its process's cache right exactly when it is steady. */
  lemma {:induction false} FailedWriterAgreesIff(h: Hash, w: World, a: Act)
    requires Collisionless(h) && Agreement(h, w) && Orderly(a) && a.Append? && a.outcome != Written
    ensures CacheAgrees(Do(h, w, a), Do(h, w, a).CacheOf(a.process)) <==> Steady(w, a)
  {
    hide Verify, HeadOf, LastHash, RecordsOf, LogIntact;
    var c := w.CacheOf(a.process);
    AppendOnce(h, w, a);
    TailIsDiskHead(h, w, a.process, a.id);
    assert CacheAgrees(w, c);
    if Current(w, c).Some? { HeadsAgreeIff(h, w, Current(w, c).value, a.id); }
  }

  /** A cache nobody touched still agrees when its log has grown, by no longer applying. */
  lemma {:induction false} OtherCache(w: World, w': World, c: Cache, id: LogId)
    requires CacheAgrees(w, c) && (w'.Log(id) == w.Log(id) || w'.Log(id).size > w.Log(id).size)
    requires forall other: LogId :: other != id ==> w'.Log(other) == w.Log(other)
    ensures CacheAgrees(w', c)
  {
  }

  lemma {:induction false} OtherCaches(h: Hash, w: World, a: Act, p: nat)
    requires Collisionless(h) && Agreement(h, w) && Orderly(a) && (a.Append? ==> p != a.process)
    ensures CacheAgrees(Do(h, w, a), Do(h, w, a).CacheOf(p))
  {
    assert CacheAgrees(w, w.CacheOf(p));
    if a.Append? {
      AppendOnce(h, w, a);
      OtherCache(w, Do(h, w, a), w.CacheOf(p), a.id);
    }
  }

  /** One orderly act keeps every cache in agreement with the disk exactly when it is steady. */
  lemma {:induction false} ActKeepsAgreementIff(h: Hash, w: World, a: Act)
    requires Collisionless(h) && Agreement(h, w) && Orderly(a)
    ensures Agreement(h, Do(h, w, a)) <==> Steady(w, a)
  {
    hide RecordIn, LogIntact, RecordsOf, HeadOf, Steady;
    var w' := Do(h, w, a);
    forall id: LogId ensures LogIntact(h, w', id) { LogAfter(h, w, a, id); }
    forall p: nat | a.Append? ==> p != a.process ensures CacheAgrees(w', w'.CacheOf(p)) { OtherCaches(h, w, a, p); }
    if a.Append? {
      if a.outcome == Written { WriterAgrees(h, w, a); } else { FailedWriterAgreesIff(h, w, a); }
    }
    SteadyOtherwise(w, a);
  }

  lemma {:induction false} SteadyOtherwise(w: World, a: Act)
    ensures a.Restart? || a.outcome == Written ==> Steady(w, a)
  {
  }

  ghost predicate AgreesThroughout(h: Hash, w: World, acts: seq<Act>)
    decreases |acts|
  {
    Agreement(h, w) && (acts == [] || AgreesThroughout(h, Do(h, w, acts[0]), acts[1..]))
  }

  /** Over any orderly run every cache agrees with the disk all along exactly when every act is steady. */
  lemma {:induction false} RunAgreesIff(h: Hash, w: World, acts: seq<Act>)
    requires Collisionless(h) && Agreement(h, w) && forall a :: a in acts ==> Orderly(a)
    ensures Allowed(h, w, acts) <==> AgreesThroughout(h, w, acts)
    decreases |acts|
  {
    if acts != [] {
      assert acts[0] in acts && forall a :: a in acts[1..] ==> a in acts;
      ActKeepsAgreementIff(h, w, acts[0]);
      if Steady(w, acts[0]) { RunAgreesIff(h, Do(h, w, acts[0]), acts[1..]); }
    }
  }

  lemma {:induction false} RunKeepsAgreement(h: Hash, w: World, acts: seq<Act>)
    requires Collisionless(h) && Agreement(h, w) && Allowed(h, w, acts)
    ensures Agreement(h, Run(h, w, acts))
    decreases |acts|
  {
    if acts != [] {
      ActKeepsAgreementIff(h, w, acts[0]);
      RunKeepsAgreement(h, Do(h, w, acts[0]), acts[1..]);
    }
  }

  /** Any number of processes appending to any logs in any order, restarting at will, with writes
      that fail before or after the line lands: each log verifies with exactly the records that
      landed, and every process would chain onto the head that is on disk. */
  lemma {:induction false} CachesAgreeWithDisk(h: Hash, acts: seq<Act>, p: nat, id: LogId)
    requires Collisionless(h) && Allowed(h, EMPTY_WORLD, acts)
    ensures var w := Run(h, EMPTY_WORLD, acts);
      && Verify(h, w.Log(id).All()).Intact? && Verify(h, w.Log(id).All()).records == w.Landed(id)
      && Tail(w.CacheOf(p), id, w.Log(id)) == HeadOf(w.Log(id).All()) == Some(Verify(h, w.Log(id).All()).head)
  {
    RunKeepsAgreement(h, EMPTY_WORLD, acts);
    var w := Run(h, EMPTY_WORLD, acts);
    TailIsDiskHead(h, w, p, id);
    assert LogIntact(h, w, id);
  }

  /** With one log the failure rule costs nothing. */
  lemma {:induction false} OneLogIsAlwaysSteady(h: Hash, w: World, acts: seq<Act>, id: LogId)
    requires forall a :: a in acts ==> Orderly(a) && (a.Append? ==> a.id == id)
    requires forall p: nat :: w.CacheOf(p).key.Some? ==> w.CacheOf(p).key.value.id == id
    ensures Allowed(h, w, acts)
    decreases |acts|
  {
    if acts != [] {
      var w' := Do(h, w, acts[0]);
      forall p: nat | w'.CacheOf(p).key.Some? ensures w'.CacheOf(p).key.value.id == id {
        assert w.CacheOf(p).key.Some? ==> w.CacheOf(p).key.value.id == id;
      }
      OneLogIsAlwaysSteady(h, Do(h, w, acts[0]), acts[1..], id);
    }
  }

  predicate OrdinaryAppend(a: Act, p: nat, id: LogId, outcome: Outcome) {
    a.Append? && a.process == p && a.id == id && a.outcome == outcome && Orderly(a)
  }

  lemma {:induction false} RunTwo(h: Hash, w: World, a: Act, b: Act)
    ensures Run(h, w, [a, b]) == Do(h, Do(h, w, a), b)
  {
    hide Do;
    var w' := Do(h, Do(h, w, a), b);
    assert [a, b][1..] == [b] && [b][1..] == [];
    assert Run(h, w', []) == w';
    assert Run(h, Do(h, w, a), [b]) == w';
  }

  /** A record chained onto `previous`, in a log whose head may be another. */
  lemma {:induction false} ChainedOnto(h: Hash, lines: seq<Line>, previous: string, base: Object, fields: Object)
    requires Collisionless(h) && Verify(h, lines).Intact?
    requires "hash" !in base && "hash" !in fields && "prev" !in fields
    ensures var grown := Verify(h, lines + [Record(Chained(h, base, previous, fields))]);
            if previous == Verify(h, lines).head then grown.Intact?
            else grown == Broken(Verify(h, lines).records, |lines| + 1, DoesNotFollow)
  {
    hide Verify, CheckLine;
    var line := Record(Chained(h, base, previous, fields));
    VerifyToBack(h, lines, line);
    ChainedIsChecked(h, Verify(h, lines).head, previous, base, fields);
  }

  lemma {:induction false} VerifyToBack(h: Hash, lines: seq<Line>, line: Line)
    requires Verify(h, lines).Intact?
    ensures var (n, head) := (Verify(h, lines).records, Verify(h, lines).head);
            Verify(h, lines + [line]) == match CheckLine(h, head, line)
                                         case Same => Intact(n, head)
                                         case Next(hash) => Intact(n + 1, hash)
                                         case Bad(reason) => Broken(n, |lines| + 1, reason)
  {
    assert (lines + [line])[..|lines|] == lines;
  }

  lemma {:induction false} ChainedIsChecked(h: Hash, head: string, previous: string, base: Object, fields: Object)
    requires "hash" !in base && "hash" !in fields && "prev" !in fields
    ensures CheckLine(h, head, Record(Chained(h, base, previous, fields)))
            == if previous == head then Next(h(previous, Payload(base, previous, fields))) else Bad(DoesNotFollow)
  {
    var line := Record(Chained(h, base, previous, fields));
    assert line.fields - {"hash"} == Payload(base, previous, fields);
  }

  /** The rule is needed: a write that fails on log b, while the process's cache is keyed to the
      current end of log a, leaves b's head under a's key. The next record on a verifies exactly when
      the two logs hold the same records. */
  lemma {:induction false} FailureElsewherePoisonsTheCache(h: Hash, w: World, p: nat, a: LogId, b: LogId, failing: Act, next: Act)
    requires Collisionless(h) && Agreement(h, w) && a != b
    requires w.CacheOf(p).head.Some? && w.CacheOf(p).key == Some(Key(a, w.Log(a).size))
    requires OrdinaryAppend(failing, p, b, NothingWritten) && OrdinaryAppend(next, p, a, Written)
    ensures var report := Verify(h, Run(h, w, [failing, next]).Log(a).All());
            if RecordsOf(w.Log(a).lines) == RecordsOf(w.Log(b).lines) then report.Intact?
            else report == Broken(w.Landed(a), |w.Log(a).lines| + 1, DoesNotFollow)
  {
    RunTwo(h, w, failing, next);
    TailIsDiskHead(h, w, p, a);
    TailIsDiskHead(h, w, p, b);
    assert LogIntact(h, w, a) && LogIntact(h, w, b);
    SameHeadIffSameRecords(h, w.Log(a).lines, w.Log(b).lines);
    ChainedOnto(h, w.Log(a).lines, Verify(h, w.Log(b).lines).head, next.base, next.fields);
    var w1 := Do(h, w, failing);
    assert w1.Log(a) == w.Log(a) && Tail(w1.CacheOf(p), a, w.Log(a)) == HeadOf(w.Log(b).All());
  }

  lemma {:induction false} EmptyAgrees(h: Hash)
    ensures Agreement(h, EMPTY_WORLD)
  {
  }

  lemma {:induction false} FirstRecord(h: Hash, p: nat, a: LogId, b: LogId, first: Act)
    requires Collisionless(h) && a != b && OrdinaryAppend(first, p, a, Written)
    ensures var w := Do(h, EMPTY_WORLD, first);
            w.CacheOf(p).head.Some? && w.CacheOf(p).key == Some(Key(a, w.Log(a).size))
            && |w.Log(a).lines| == 1 && w.Log(a).lines[0].Record? && w.Landed(a) == 1 && w.Log(b).lines == []
  {
  }

  /** Such a run from the very start: record in log a, fail to write in log b, record in a again. */
  lemma {:induction false} PoisonedRunBreaks(h: Hash, p: nat, a: LogId, b: LogId, first: Act, failing: Act, next: Act)
    requires Collisionless(h) && a != b
    requires OrdinaryAppend(first, p, a, Written)
    requires OrdinaryAppend(failing, p, b, NothingWritten) && OrdinaryAppend(next, p, a, Written)
    ensures Verify(h, Run(h, EMPTY_WORLD, [first, failing, next]).Log(a).All()) == Broken(1, 2, DoesNotFollow)
  {
    hide RecordIn, Verify, Agreement;
    assert [first, failing, next][1..] == [failing, next];
    EmptyAgrees(h);
    ActKeepsAgreementIff(h, EMPTY_WORLD, first);
    FirstRecord(h, p, a, b, first);
    var w := Do(h, EMPTY_WORLD, first);
    assert w.Log(a).lines[..0] == [];
    FailureElsewherePoisonsTheCache(h, w, p, a, b, failing, next);
  }

  // ------------------------------------------------------------------ when a write tears

  /** Appending to a log that verifies leaves one that verifies exactly when no torn write came
      before and the caller's fields are harmless. */
  lemma {:induction false} AppendVerifiesIff(h: Hash, f: File, base: Object, fields: Object, bytes: nat)
    requires Collisionless(h) && "hash" !in base && Verify(h, f.lines).Intact? && HeadOf(f.All()).Some?
    ensures var previous := HeadOf(f.All()).value;
            var f' := f.Append(Record(Chained(h, base, previous, fields)), bytes);
            Verify(h, f'.All()).Intact? <==> f.torn.None? && Harmless(previous, fields)
  {
    var previous := HeadOf(f.All()).value;
    var line := if f.torn.Some? then NotObject else Record(Chained(h, base, previous, fields));
    assert (f.lines + [line])[..|f.lines|] == f.lines;
    if f.torn.None? {
      IntactHead(h, f.lines);
      ChainedFollowsIffHarmless(h, base, previous, fields);
    }
  }

  /** No hash of a record on top of a log that verifies is that log's head again. */
  lemma {:induction false} HeadsMove(h: Hash, lines: seq<Line>, payload: Object)
    requires Collisionless(h) && Verify(h, lines).Intact?
    ensures h(Verify(h, lines).head, payload) != Verify(h, lines).head
  {
    if lines != [] { HeadsMove(h, lines[..|lines| - 1], payload); }
  }

  lemma {:induction false} TornKeepsHead(f: File, fragment: Line, bytes: nat)
    requires f.torn.None? && fragment != NotUtf8 && (fragment.Record? ==> "hash" !in fragment.fields)
    ensures HeadOf(File(f.lines, Some(fragment), f.size + bytes).All()) == HeadOf(f.All())
    ensures HeadOf(f.Append(NotObject, bytes).All()) == HeadOf(f.All())
  {
    assert (f.lines + [fragment])[..|f.lines|] == f.lines;
    assert (f.lines + [NotObject])[..|f.lines|] == f.lines;
  }

  lemma {:induction false} AgreementAt(h: Hash, w: World, p: nat, id: LogId)
    requires Agreement(h, w)
    ensures CacheAgrees(w, w.CacheOf(p)) && LogIntact(h, w, id)
  {
  }

  /** A torn write, then a record by the same process that succeeds: that record shares the torn line
      and is lost on disk, but its writer goes on from the lost record's hash while every fresh process
      reads the head before the tear. The two heads differ, so their next records fork the chain. */
  lemma {:induction false} TornWriteForksTheChain(h: Hash, w: World, p: nat, id: LogId, head: string, tearing: Act, next: Act)
    requires Collisionless(h) && Agreement(h, w) && HeadOf(w.Log(id).All()) == Some(head)
    requires tearing.Append? && tearing.process == p && tearing.id == id && tearing.bytes > 0 && tearing.outcome.Torn?
    requires var fragment := tearing.outcome.fragment;
             fragment != NotUtf8 && (fragment.Record? ==> "hash" !in fragment.fields)
    requires OrdinaryAppend(next, p, id, Written)
    ensures var w' := Run(h, w, [tearing, next]);
            Tail(w'.CacheOf(p), id, w'.Log(id)) == Some(h(head, Payload(next.base, head, next.fields)))
            && Tail(FRESH_CACHE, id, w'.Log(id)) == Some(head)
            && Tail(w'.CacheOf(p), id, w'.Log(id)) != Tail(FRESH_CACHE, id, w'.Log(id))
  {
    hide Verify, HeadOf, Agreement;
    RunTwo(h, w, tearing, next);
    TailIsDiskHead(h, w, p, id);
    AgreementAt(h, w, p, id);
    assert LogIntact(h, w, id) && CacheAgrees(w, w.CacheOf(p));
    var f := w.Log(id);
    TornKeepsHead(f, tearing.outcome.fragment, tearing.bytes);
    TornKeepsHead(f, tearing.outcome.fragment, tearing.bytes + next.bytes);
    HeadsMove(h, f.lines, Payload(next.base, head, next.fields));
    var torn := Do(h, w, tearing);
    assert Tail(torn.CacheOf(p), id, torn.Log(id)) == Some(head);
  }

  /** No append by any process, however it ends, repairs or moves a break that `verify` reports. */
  lemma {:induction false} BreaksAreNeverRepaired(h: Hash, id: LogId, f: File, c: Cache, base: Object, fields: Object,
                                                  bytes: nat, outcome: Outcome)
    requires Verify(h, f.All()).Broken?
    ensures var f' := RecordIn(h, id, f, c, base, fields, bytes, outcome).file;
            Verify(h, f'.All()).Broken? && Verify(h, f'.All()).line == Verify(h, f.All()).line
            && Verify(h, f'.All()).records == Verify(h, f.All()).records
  {
    var f' := RecordIn(h, id, f, c, base, fields, bytes, outcome).file;
    if Verify(h, f.lines).Broken? {
      assert f'.All()[..|f.lines|] == f.lines && f.All()[..|f.lines|] == f.lines;
      BreaksStay(h, f'.All(), |f.lines|);
      BreaksStay(h, f.All(), |f.lines|);
    } else {
      assert f.All()[..|f.lines|] == f.lines;
      assert f'.All()[..|f.lines|] == f.lines;
    }
  }
}
