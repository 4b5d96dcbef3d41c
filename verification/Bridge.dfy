/**
 The serial-to-MQTT bridge (bridge.py): one thread reads the session and publishes, while other
 threads may ask it to stop at any moment.
*/
module Bridge {
  import opened Wrappers
  import opened Bytes

  /** A JSON object read from the board, as `json.dumps` renders it. */
  datatype Reading = Json(text: seq<byte>) | Unserializable

  datatype Heard = Match(reading: Reading) | NoMatch | SessionClosed

  /** A ToolError and any other exception of `publish` are handled alike. */
  datatype Answer = Sent | Failed(message: string)

  /** What the broker was handed, and how that went. */
  datatype Delivery = Delivery(payload: seq<byte>, ok: bool)

  /** What the world has seen: interactions so far, the clock, when a stop came into force and why,
      how often the session was read, the readings matched, the charges admitted and refused, and what the
      broker was handed. */
  datatype Outside = Outside(turn: nat, now: nat, stop: Option<nat>, reason: string, polls: nat, heard: seq<Reading>,
                             admitted: nat, refused: nat, handed: seq<Delivery>)

  /** Time goes on, and a stop and its reason stay. */
  predicate Passed(o: Outside, p: Outside) {
    o.turn <= p.turn && o.now <= p.now
    && (if o.stop.Some? then p.stop == o.stop && p.reason == o.reason else p.stop.Some? ==> p.stop.value >= o.turn)
  }

  /** Time has passed, and nothing else has happened. */
  function Drifted(o: Outside, p: Outside): Outside {
    o.(turn := p.turn, now := p.now, stop := p.stop, reason := p.reason)
  }

  /** `stop`: the first reason stays. */
  function Stopped(o: Outside, reason: string): Outside {
    if o.stop.Some? then o else o.(stop := Some(o.turn), reason := reason)
  }

  /**
   Everything outside the thread. Interaction i finds the clock `ticks(i)` further on, and another
   thread's stop in force if `stops(i)`.
  */
  class World {
    const ticks: nat -> nat
    const stops: nat -> bool
    const admits: nat -> bool
    const answers: nat -> Answer
    const lines: nat -> Heard
    var o: Outside

    constructor (ticks: nat -> nat, stops: nat -> bool, admits: nat -> bool, answers: nat -> Answer, lines: nat -> Heard)
      ensures o == Outside(0, 0, None, "", 0, [], 0, 0, [])
    {
      this.ticks, this.stops, this.admits, this.answers, this.lines := ticks, stops, admits, answers, lines;
      o := Outside(0, 0, None, "", 0, [], 0, 0, []);
    }

    /** One interaction later. */
    function Later(o: Outside): (p: Outside)
      ensures Passed(o, p) && p == Drifted(o, p)
    {
      (if stops(o.turn) then Stopped(o, "stopped") else o).(turn := o.turn + 1, now := o.now + ticks(o.turn))
    }

    method Pass()
      modifies this
      ensures o == Later(old(o))
    {
      o := Later(o);
    }

    method Stop(reason: string)
      modifies this
      ensures o == Stopped(old(o), reason) && Passed(old(o), o)
    {
      o := Stopped(o, reason);
    }

    method StopIsSet() returns (b: bool)
      modifies this
      ensures o == Later(old(o)) && b == o.stop.Some?
    {
      Pass();
      b := o.stop.Some?;
    }

    method Monotonic() returns (t: nat)
      modifies this
      ensures o == Later(old(o)) && t == o.now
    {
      Pass();
      t := o.now;
    }

    method Charge() returns (ok: bool)
      modifies this
      ensures var p := Later(old(o));
              o == (if ok then p.(admitted := p.admitted + 1) else p.(refused := p.refused + 1)) && ok == admits(p.turn)
    {
      Pass();
      ok := admits(o.turn);
      o := if ok then o.(admitted := o.admitted + 1) else o.(refused := o.refused + 1);
    }

    method Publish(payload: seq<byte>) returns (a: Answer)
      modifies this
      ensures var p := Later(old(o)); o == p.(handed := p.handed + [Delivery(payload, a.Sent?)]) && a == answers(p.turn)
    {
      Pass();
      a := answers(o.turn);
      o := o.(handed := o.handed + [Delivery(payload, a.Sent?)]);
    }

    /** What the session gives when it is read. */
    function Hears(o: Outside): Heard { lines(Later(o).turn) }

    method Expect() returns (h: Heard)
      modifies this
      ensures h == Hears(old(o)) && o == AfterHearing(Later(old(o)), h)
    {
      Pass();
      h := lines(o.turn);
      o := AfterHearing(o, h);
    }
  }

  function AfterHearing(o: Outside, h: Heard): Outside {
    o.(polls := o.polls + 1, heard := o.heard + if h.Match? then [h.reading] else [])
  }

  /** What became of a reading. */
  datatype Fate = InHand | Waiting | Published | Errored | RateDropped | BudgetDropped | SizeDropped | Ignored

  /** A publish that passed the charge: for which reading, when its `_send` was entered (in
      interactions), when it began and when `_last_sent` was read after it. */
  datatype Attempt = Attempt(reading: nat, entered: nat, begun: nat, ended: nat)

  datatype Counters = Counters(published: nat, rate: nat, budget: nat, size: nat)

  // ------------------------------------------------------------------ the invariant, on values

  /** The counters count fates, and exactly the pending reading waits. */
  ghost predicate Tallied(c: Counters, errors: nat, fates: seq<Fate>, waiting: Option<nat>, hand: Option<nat>) {
    var m := multiset(fates);
    c == Counters(m[Published], m[RateDropped], m[BudgetDropped], m[SizeDropped]) && errors == m[Errored]
    && (forall i :: 0 <= i < |fates| ==> (fates[i] == Waiting <==> waiting == Some(i)))
    && (forall i :: 0 <= i < |fates| ==> (fates[i] == InHand <==> hand == Some(i)))
    && (waiting.Some? ==> waiting.value < |fates|) && (hand.Some? ==> hand.value < |fates|)
  }

  /** Each attempt handed over its own reading's text, each reading at most once. */
  ghost predicate Matched(attempts: seq<Attempt>, handed: seq<Delivery>, offered: seq<Reading>, fates: seq<Fate>, maxPayload: nat) {
    |attempts| == |handed| && |fates| == |offered|
    && (forall k: nat :: k < |attempts| ==> MatchesAt(attempts, handed, k, offered, fates, maxPayload))
    && (forall k, l :: 0 <= k < l < |attempts| ==> attempts[k].reading != attempts[l].reading)
  }

  predicate MatchesAt(attempts: seq<Attempt>, handed: seq<Delivery>, k: nat, offered: seq<Reading>, fates: seq<Fate>, maxPayload: nat)
    requires k < |attempts| == |handed|
  {
    var (a, d) := (attempts[k], handed[k]);
    a.reading < |offered| && |fates| == |offered| && offered[a.reading] == Json(d.payload) && |d.payload| <= maxPayload
    && fates[a.reading] == if d.ok then Published else Errored
  }

  function LastEnd(attempts: seq<Attempt>): nat {
    if attempts == [] then 0 else attempts[|attempts| - 1].ended
  }

  /** Attempt k begins an interval after the one before it ended (the first, after time 0), and its
      send was entered no later than any stop. */
  predicate PacedAt(attempts: seq<Attempt>, k: nat, interval: nat, bound: nat)
    requires k < |attempts|
  {
    var a := attempts[k];
    (if k == 0 then 0 else attempts[k - 1].ended) + interval <= a.begun <= a.ended && a.entered <= bound
  }

  function Bound(o: Outside): nat { if o.stop.Some? then o.stop.value else o.turn }

  ghost predicate Paced(attempts: seq<Attempt>, interval: nat, o: Outside) {
    LastEnd(attempts) <= o.now && forall k: nat :: k < |attempts| ==> PacedAt(attempts, k, interval, Bound(o))
  }

  /** Offered readings are accounted for, one by one. */
  lemma {:induction false} FatesAddUp(fates: seq<Fate>)
    ensures var m := multiset(fates);
            |fates| == m[InHand] + m[Waiting] + m[Published] + m[Errored] + m[RateDropped] + m[BudgetDropped]
                       + m[SizeDropped] + m[Ignored]
  {
    if fates != [] {
      var n := |fates| - 1;
      FatesAddUp(fates[..n]);
      assert fates == fates[..n] + [fates[n]];
      var (m, k) := (multiset(fates), multiset(fates[..n]));
      assert m == k + multiset{fates[n]};
      match fates[n] { case _ => }
      assert forall f :: m[f] == k[f] + if f == fates[n] then 1 else 0;
    }
  }

  lemma {:induction false} AtMostOneWaits(fates: seq<Fate>, f: Fate, at: Option<nat>)
    requires forall i :: 0 <= i < |fates| ==> (fates[i] == f <==> at == Some(i))
    requires at.Some? ==> at.value < |fates|
    ensures multiset(fates)[f] == if at.Some? then 1 else 0
  {
    if fates != [] {
      var n := |fates| - 1;
      assert fates == fates[..n] + [fates[n]];
      AtMostOneWaits(fates[..n], f, if at == Some(n) then None else at);
    }
  }

  lemma {:induction false} FateChanges(c: Counters, errors: nat, fates: seq<Fate>, waiting: Option<nat>, id: nat, fate: Fate)
    requires Tallied(c, errors, fates, waiting, Some(id)) && !fate.Waiting? && !fate.InHand?
    ensures Tallied(Count(c, fate), errors + (if fate == Errored then 1 else 0), fates[id := fate], waiting, None)
  {
  }

  function Count(c: Counters, fate: Fate): Counters {
    match fate
    case Published => c.(published := c.published + 1)
    case RateDropped => c.(rate := c.rate + 1)
    case BudgetDropped => c.(budget := c.budget + 1)
    case SizeDropped => c.(size := c.size + 1)
    case _ => c
  }

  lemma {:induction false} OtherFatesKeepMatches(attempts: seq<Attempt>, handed: seq<Delivery>, offered: seq<Reading>, fates: seq<Fate>,
                              maxPayload: nat, id: nat, fate: Fate)
    requires Matched(attempts, handed, offered, fates, maxPayload) && id < |fates|
    requires fates[id] != Published && fates[id] != Errored && fate != Published && fate != Errored
    ensures Matched(attempts, handed, offered, fates[id := fate], maxPayload)
  {
    var changed := fates[id := fate];
    forall k: nat | k < |attempts| ensures MatchesAt(attempts, handed, k, offered, changed, maxPayload) {
      assert MatchesAt(attempts, handed, k, offered, fates, maxPayload);
    }
  }

  lemma {:induction false} AttemptMade(attempts: seq<Attempt>, handed: seq<Delivery>, offered: seq<Reading>, fates: seq<Fate>,
                    maxPayload: nat, a: Attempt, d: Delivery)
    requires Matched(attempts, handed, offered, fates, maxPayload)
    requires a.reading < |fates| && fates[a.reading] == InHand && offered[a.reading] == Json(d.payload) && |d.payload| <= maxPayload
    ensures Matched(attempts + [a], handed + [d], offered, fates[a.reading := if d.ok then Published else Errored], maxPayload)
  {
    var fates' := fates[a.reading := if d.ok then Published else Errored];
    forall k: nat | k <= |attempts|
      ensures MatchesAt(attempts + [a], handed + [d], k, offered, fates', maxPayload)
      ensures k < |attempts| ==> attempts[k].reading != a.reading
    {
      if k < |attempts| { assert MatchesAt(attempts, handed, k, offered, fates, maxPayload); }
    }
  }

  lemma {:induction false} PaceGoesOn(b: Book, o: Outside, p: Outside, interval: nat, a: Attempt)
    requires Paced(b.attempts, interval, o) && Passed(o, p) && o.stop.None?
    requires a.begun >= LastEnd(b.attempts) + interval && a.begun <= a.ended <= p.now && a.entered <= o.turn
    ensures Paced(b.attempts + [a], interval, p)
  {
    var all := b.attempts + [a];
    forall k: nat | k < |all| ensures PacedAt(all, k, interval, Bound(p)) {
      if k < |b.attempts| { assert PacedAt(b.attempts, k, interval, Bound(o)); }
    }
  }

  lemma {:induction false} PaceLater(attempts: seq<Attempt>, interval: nat, o: Outside, p: Outside)
    requires Paced(attempts, interval, o) && Passed(o, p)
    ensures Paced(attempts, interval, p)
  {
    forall k: nat | k < |attempts| ensures PacedAt(attempts, k, interval, Bound(p)) {
      assert PacedAt(attempts, k, interval, Bound(o));
    }
  }

  /** A bridge's counters and history. */
  datatype Book = Book(counters: Counters, errors: nat, offered: seq<Reading>, fates: seq<Fate>,
                       waiting: Option<nat>, attempts: seq<Attempt>)

  predicate Fits(r: Reading, maxPayload: nat) { r.Json? && |r.text| <= maxPayload }

  /** Only what does not fit is dropped for its size, and it goes no further; only a stop makes the
      bridge ignore a reading. */
  predicate FateFits(b: Book, i: nat, maxPayload: nat, stopping: bool)
    requires i < |b.fates| == |b.offered|
  {
    var (r, f) := (b.offered[i], b.fates[i]);
    if f == SizeDropped then !Fits(r, maxPayload)
    else if f == Ignored then stopping
    else f == InHand || Fits(r, maxPayload)
  }

  ghost predicate FatesFit(b: Book, maxPayload: nat, stopping: bool)
    requires |b.fates| == |b.offered|
  {
    forall i: nat :: i < |b.fates| ==> FateFits(b, i, maxPayload, stopping)
  }

  lemma {:induction false} FatesFitStep(b: Book, b': Book, maxPayload: nat, before: bool, after: bool, id: nat)
    requires |b.fates| == |b.offered| && FatesFit(b, maxPayload, before) && (before ==> after)
    requires |b'.fates| == |b.fates| && b'.offered == b.offered
    requires forall i: nat :: i < |b.fates| && i != id ==> b'.fates[i] == b.fates[i]
    requires id < |b.fates| ==> FateFits(b', id, maxPayload, after)
    ensures FatesFit(b', maxPayload, after)
  {
    forall i: nat | i < |b.fates| ensures FateFits(b', i, maxPayload, after) {
      assert FateFits(b, i, maxPayload, before);
    }
  }

  ghost predicate Holds(b: Book, o: Outside, interval: nat, maxPayload: nat, hand: Option<nat>) {
    Tallied(b.counters, b.errors, b.fates, b.waiting, hand)
    && Matched(b.attempts, o.handed, b.offered, b.fates, maxPayload)
    && Paced(b.attempts, interval, o)
    && b.offered == o.heard && o.admitted == |b.attempts| == b.counters.published + b.errors && o.refused == b.counters.budget
    && FatesFit(b, maxPayload, o.stop.Some?)
  }

  lemma {:induction false} HoldsLater(b: Book, o: Outside, p: Outside, interval: nat, maxPayload: nat, hand: Option<nat>)
    requires Holds(b, o, interval, maxPayload, hand) && Passed(o, p)
    requires p == Drifted(o, p)
    ensures Holds(b, p, interval, maxPayload, hand)
  {
    FatesFitStep(b, b, maxPayload, o.stop.Some?, p.stop.Some?, |b.fates|);
    PaceLater(b.attempts, interval, o, p);
  }

  lemma {:induction false} HoldsPolled(b: Book, o: Outside, interval: nat, maxPayload: nat)
    requires Holds(b, o, interval, maxPayload, None)
    ensures Holds(b, o.(polls := o.polls + 1), interval, maxPayload, None)
  {
    var p := o.(polls := o.polls + 1);
    forall k: nat | k < |b.attempts| ensures PacedAt(b.attempts, k, interval, Bound(p)) {
      assert PacedAt(b.attempts, k, interval, Bound(o));
    }
  }

  /** The reading in hand is settled without an attempt. */
  lemma {:induction false} HoldsSettled(b: Book, o: Outside, p: Outside, interval: nat, maxPayload: nat, id: nat, fate: Fate)
    requires Holds(b, o, interval, maxPayload, Some(id)) && Passed(o, p)
    requires p == Drifted(o, p).(refused := o.refused + if fate == BudgetDropped then 1 else 0)
    requires fate in {Ignored, BudgetDropped, SizeDropped}
    requires FateFits(Settled(b, id, fate), id, maxPayload, p.stop.Some?)
    ensures Holds(Settled(b, id, fate), p, interval, maxPayload, None)
  {
    PaceLater(b.attempts, interval, o, p);
    FatesFitStep(b, Settled(b, id, fate), maxPayload, o.stop.Some?, p.stop.Some?, id);
    FateChanges(b.counters, b.errors, b.fates, b.waiting, id, fate);
    OtherFatesKeepMatches(b.attempts, o.handed, b.offered, b.fates, maxPayload, id, fate);
  }

  function Settled(b: Book, id: nat, fate: Fate): Book
    requires id < |b.fates|
  {
    b.(counters := Count(b.counters, fate), errors := b.errors + (if fate == Errored then 1 else 0), fates := b.fates[id := fate])
  }

  lemma {:induction false} HoldsAttempted(b: Book, o: Outside, p: Outside, interval: nat, maxPayload: nat, a: Attempt, d: Delivery)
    requires Holds(b, o, interval, maxPayload, Some(a.reading)) && Passed(o, p)
    requires b.offered[a.reading] == Json(d.payload) && |d.payload| <= maxPayload
    requires p == Drifted(o, p).(admitted := o.admitted + 1, handed := o.handed + [d])
    requires a.begun >= LastEnd(b.attempts) + interval && a.begun <= a.ended <= p.now
    requires o.stop.None? && a.entered <= o.turn
    ensures Holds(Tried(b, a, d.ok), p, interval, maxPayload, None)
  {
    FatesFitStep(b, Tried(b, a, d.ok), maxPayload, o.stop.Some?, p.stop.Some?, a.reading);
    FateChanges(b.counters, b.errors, b.fates, b.waiting, a.reading, if d.ok then Published else Errored);
    AttemptMade(b.attempts, o.handed, b.offered, b.fates, maxPayload, a, d);
    PaceGoesOn(b, o, p, interval, a);
  }

  /** The reading in hand replaces the pending one. */
  function Replaced(b: Book, id: nat): Book
    requires id < |b.fates| && (b.waiting.Some? ==> b.waiting.value < |b.fates|)
  {
    if b.waiting.Some? then
      b.(counters := Count(b.counters, RateDropped), fates := b.fates[b.waiting.value := RateDropped][id := Waiting], waiting := Some(id))
    else b.(fates := b.fates[id := Waiting], waiting := Some(id))
  }

  lemma {:induction false} TallyReplaced(b: Book, id: nat)
    requires Tallied(b.counters, b.errors, b.fates, b.waiting, Some(id))
    ensures var r := Replaced(b, id);
            Tallied(r.counters, r.errors, r.fates, r.waiting, None)
            && r.counters.budget == b.counters.budget && r.counters.published == b.counters.published
  {
    assert id < |b.fates| && (b.waiting.Some? ==> b.waiting.value < |b.fates|);
    hide Tallied;
    if b.waiting.Some? {
      TallyFreed(b.counters, b.errors, b.fates, b.waiting.value, id);
      TallyWaits(Count(b.counters, RateDropped), b.errors, b.fates[b.waiting.value := RateDropped], id);
    } else {
      TallyWaits(b.counters, b.errors, b.fates, id);
    }
  }

  /** The pending reading gives way. */
  lemma {:induction false} TallyFreed(c: Counters, errors: nat, fates: seq<Fate>, waiting: nat, id: nat)
    requires Tallied(c, errors, fates, Some(waiting), Some(id))
    ensures Tallied(Count(c, RateDropped), errors, fates[waiting := RateDropped], None, Some(id))
  {
    assert fates[waiting] == Waiting && fates[id] == InHand;
  }

  /** The reading in hand becomes the pending one. */
  lemma {:induction false} TallyWaits(c: Counters, errors: nat, fates: seq<Fate>, id: nat)
    requires Tallied(c, errors, fates, None, Some(id))
    ensures Tallied(c, errors, fates[id := Waiting], Some(id), None)
  {
    assert fates[id] == InHand;
  }

  lemma {:induction false} HoldsWaiting(b: Book, o: Outside, interval: nat, maxPayload: nat, id: nat)
    requires Holds(b, o, interval, maxPayload, Some(id)) && Fits(b.offered[id], maxPayload)
    ensures Holds(Replaced(b, id), o, interval, maxPayload, None)
  {
    TallyReplaced(b, id);
    var freed := if b.waiting.Some? then b.(fates := b.fates[b.waiting.value := RateDropped]) else b;
    if b.waiting.Some? {
      assert FateFits(b, b.waiting.value, maxPayload, o.stop.Some?);
      FatesFitStep(b, freed, maxPayload, o.stop.Some?, o.stop.Some?, b.waiting.value);
    }
    FatesFitStep(freed, Replaced(b, id), maxPayload, o.stop.Some?, o.stop.Some?, id);
    MatchReplaced(b, o.handed, maxPayload, id);
  }

  lemma {:induction false} MatchReplaced(b: Book, handed: seq<Delivery>, maxPayload: nat, id: nat)
    requires Matched(b.attempts, handed, b.offered, b.fates, maxPayload)
    requires id < |b.fates| && b.fates[id] == InHand
    requires b.waiting.Some? ==> b.waiting.value < |b.fates| && b.fates[b.waiting.value] == Waiting
    ensures Matched(b.attempts, handed, b.offered, Replaced(b, id).fates, maxPayload)
  {
    var freed := if b.waiting.Some? then b.fates[b.waiting.value := RateDropped] else b.fates;
    if b.waiting.Some? {
      OtherFatesKeepMatches(b.attempts, handed, b.offered, b.fates, maxPayload, b.waiting.value, RateDropped);
    }
    OtherFatesKeepMatches(b.attempts, handed, b.offered, freed, maxPayload, id, Waiting);
  }

  /** The newest reading waits; the one it replaces, if any, is dropped for rate and counted. */
  lemma {:induction false} NewestWaits(b: Book, id: nat)
    requires id < |b.fates| && (b.waiting.Some? ==> b.waiting.value < |b.fates| && b.waiting.value != id)
    ensures var r := Replaced(b, id);
            && r.waiting == Some(id) && |r.fates| == |b.fates| && r.fates[id] == Waiting
            && r.counters == (if b.waiting.Some? then b.counters.(rate := b.counters.rate + 1) else b.counters)
            && (b.waiting.Some? ==> r.fates[b.waiting.value] == RateDropped)
            && (forall i :: 0 <= i < |b.fates| && i != id && Some(i) != b.waiting ==> r.fates[i] == b.fates[i])
            && r.attempts == b.attempts && r.offered == b.offered && r.errors == b.errors
  {
  }

  // ------------------------------------------------------------------ one step, on values

  /** What one `_send` of reading `id` does; `a` is the attempt it made, if it made one. */
  ghost predicate SendStep(b: Book, o: Outside, b': Book, o': Outside, id: nat, payload: seq<byte>, fate: Fate, a: Attempt)
    requires id < |b.fates|
  {
    Passed(o, o') && (o.stop.Some? ==> fate == Ignored)
    && match fate
       case Ignored => b' == Settled(b, id, fate) && o' == Drifted(o, o') && o'.stop.Some?
       case BudgetDropped => b' == Settled(b, id, fate) && o' == Drifted(o, o').(refused := o.refused + 1)
       case Published => Timely(a, o, o', id) && b' == Tried(b, a, true) && o' == HandedOver(o, o', payload, true)
       case Errored => Timely(a, o, o', id) && b' == Tried(b, a, false) && o' == HandedOver(o, o', payload, false)
       case _ => false
  }

  function HandedOver(o: Outside, o': Outside, payload: seq<byte>, ok: bool): Outside {
    Drifted(o, o').(admitted := o.admitted + 1, handed := o.handed + [Delivery(payload, ok)])
  }

  function Tried(b: Book, a: Attempt, ok: bool): Book
    requires a.reading < |b.fates|
  {
    Settled(b, a.reading, if ok then Published else Errored).(attempts := b.attempts + [a])
  }

  predicate Timely(a: Attempt, o: Outside, o': Outside, id: nat) {
    a.reading == id && a.entered == o.turn && o.now <= a.begun <= a.ended <= o'.now
  }

  lemma {:induction false} SendHolds(b: Book, o: Outside, b': Book, o': Outside, interval: nat, maxPayload: nat, id: nat,
                  payload: seq<byte>, fate: Fate, a: Attempt)
    requires Holds(b, o, interval, maxPayload, Some(id)) && SendStep(b, o, b', o', id, payload, fate, a)
    requires Ready(b, id, payload, maxPayload) && o.now >= LastEnd(b.attempts) + interval
    ensures Holds(b', o', interval, maxPayload, None)
  {
    if fate == Ignored || fate == BudgetDropped {
      HoldsSettled(b, o, o', interval, maxPayload, id, fate);
    } else {
      HoldsAttempted(b, o, o', interval, maxPayload, a, Delivery(payload, fate == Published));
    }
  }

  ghost predicate Ready(b: Book, id: nat, payload: seq<byte>, maxPayload: nat) {
    id < |b.offered| && b.offered[id] == Json(payload) && |payload| <= maxPayload
  }

  /** A reading is taken from the session. */
  function Taken(b: Book, r: Reading): Book { b.(offered := b.offered + [r], fates := b.fates + [InHand]) }

  lemma {:induction false} TakenHolds(b: Book, o: Outside, p: Outside, interval: nat, maxPayload: nat, r: Reading)
    requires Holds(b, o, interval, maxPayload, None) && Passed(o, p)
    requires p == Drifted(o, p).(polls := o.polls + 1, heard := o.heard + [r])
    ensures Holds(Taken(b, r), p, interval, maxPayload, Some(|b.fates|))
  {
    PaceLater(b.attempts, interval, o, p);
    var t := Taken(b, r);
    assert multiset(t.fates) == multiset(b.fates) + multiset{InHand};
    forall i: nat | i < |t.fates| ensures FateFits(t, i, maxPayload, p.stop.Some?) {
      if i < |b.fates| { assert FateFits(b, i, maxPayload, o.stop.Some?); }
    }
    forall k: nat | k < |b.attempts| ensures MatchesAt(b.attempts, o.handed, k, t.offered, t.fates, maxPayload) {
      assert MatchesAt(b.attempts, o.handed, k, b.offered, b.fates, maxPayload);
    }
  }

  /** The pending reading is taken up again. */
  function Pulled(b: Book): Book
    requires b.waiting.Some? && b.waiting.value < |b.fates|
  {
    b.(fates := b.fates[b.waiting.value := InHand], waiting := None)
  }

  lemma {:induction false} PulledHolds(b: Book, o: Outside, interval: nat, maxPayload: nat)
    requires Holds(b, o, interval, maxPayload, None) && b.waiting.Some?
    ensures Holds(Pulled(b), o, interval, maxPayload, b.waiting)
  {
    FatesFitStep(b, Pulled(b), maxPayload, o.stop.Some?, o.stop.Some?, b.waiting.value);
    OtherFatesKeepMatches(b.attempts, o.handed, b.offered, b.fates, maxPayload, b.waiting.value, InHand);
  }

  /** What one `_offer` of reading `id` does; `mid` is the world when it looks at the clock. */
  ghost predicate OfferStep(b: Book, o: Outside, mid: Outside, b': Book, o': Outside, interval: nat, maxPayload: nat,
                            id: nat, fate: Fate, a: Attempt)
    requires id < |b.fates| == |b.offered| && (b.waiting.Some? ==> b.waiting.value < |b.fates|)
  {
    Passed(o, mid) && mid == Drifted(o, mid) && (o.stop.Some? ==> fate == Ignored)
    && if fate == SizeDropped then o' == mid && b' == Settled(b, id, fate) && !Fits(b.offered[id], maxPayload)
       else if fate == Waiting then
         o' == mid && b' == Replaced(b, id) && Fits(b.offered[id], maxPayload) && mid.now < LastEnd(b.attempts) + interval
       else if fate == Ignored && o' == mid then b' == Settled(b, id, fate) && mid.stop.Some?
       else Fits(b.offered[id], maxPayload) && mid.now >= LastEnd(b.attempts) + interval
            && SendStep(b, mid, b', o', id, b.offered[id].text, fate, a)
  }

  lemma {:induction false} OfferHolds(b: Book, o: Outside, mid: Outside, b': Book, o': Outside, interval: nat, maxPayload: nat,
                   id: nat, fate: Fate, a: Attempt)
    requires Holds(b, o, interval, maxPayload, Some(id))
    requires OfferStep(b, o, mid, b', o', interval, maxPayload, id, fate, a)
    ensures Holds(b', o', interval, maxPayload, None)
  {
    HoldsLater(b, o, mid, interval, maxPayload, Some(id));
    if fate == Waiting {
      HoldsWaiting(b, mid, interval, maxPayload, id);
    } else if fate == SizeDropped || (fate == Ignored && o' == mid) {
      HoldsSettled(b, o, mid, interval, maxPayload, id, fate);
    } else {
      SendHolds(b, mid, b', o', interval, maxPayload, id, b.offered[id].text, fate, a);
    }
  }

  predicate IsSettled(f: Fate) { f != InHand && f != Waiting }

  /** Later readings and attempts come after earlier ones, and a settled fate is final. */
  predicate Extends(b: Book, b': Book) {
    b.offered <= b'.offered && b.attempts <= b'.attempts && |b.fates| <= |b'.fates|
    && forall i :: 0 <= i < |b.fates| && IsSettled(b.fates[i]) ==> b'.fates[i] == b.fates[i]
  }

  lemma {:induction false} SendExtends(b: Book, o: Outside, b': Book, o': Outside, id: nat, payload: seq<byte>, fate: Fate, a: Attempt)
    requires id < |b.fates| && b.fates[id] == InHand && SendStep(b, o, b', o', id, payload, fate, a)
    ensures Extends(b, b')
  {
  }

  lemma {:induction false} OfferExtends(b: Book, o: Outside, mid: Outside, b': Book, o': Outside, interval: nat, maxPayload: nat,
                     id: nat, fate: Fate, a: Attempt)
    requires id < |b.fates| == |b.offered| && b.fates[id] == InHand
    requires b.waiting.Some? ==> b.waiting.value < |b.fates| && b.fates[b.waiting.value] == Waiting
    requires OfferStep(b, o, mid, b', o', interval, maxPayload, id, fate, a)
    ensures Extends(b, b')
  {
    if b' != Replaced(b, id) && fate != SizeDropped && !(fate == Ignored && o' == mid) {
      SendExtends(b, mid, b', o', id, b.offered[id].text, fate, a);
    }
  }

  lemma {:induction false} ExtendsItself(b: Book)
    ensures Extends(b, b)
  {
  }

  lemma {:induction false} ExtendsThrough(a: Book, b: Book, c: Book)
    requires Extends(a, b) && Extends(b, c)
    ensures Extends(a, c)
  {
  }

  /** The reading that waited has met its fate, and nothing was read meanwhile. */
  predicate Settles(b: Book, o: Outside, b': Book, o': Outside)
    requires b.waiting.Some?
  {
    b.waiting.value < |b'.fates| && b'.waiting.None? && b'.offered == b.offered && o'.heard == o.heard && o'.polls == o.polls
    && Passed(o, o') && b'.fates[b.waiting.value] in {Published, Errored, BudgetDropped, Ignored}
    && (b'.fates[b.waiting.value] == Ignored ==> o'.stop.Some?)
  }

  /** An old reading whose interval is over goes out. */
  lemma {:induction false} FlushHolds(b: Book, o: Outside, mid: Outside, b': Book, o': Outside, interval: nat, maxPayload: nat,
                   payload: seq<byte>, fate: Fate, a: Attempt)
    requires Holds(b, o, interval, maxPayload, None) && b.waiting.Some?
    requires Passed(o, mid) && mid == Drifted(o, mid) && mid.now >= LastEnd(b.attempts) + interval
    requires Ready(b, b.waiting.value, payload, maxPayload)
    requires SendStep(Pulled(b), mid, b', o', b.waiting.value, payload, fate, a)
    ensures Holds(b', o', interval, maxPayload, None) && Extends(b, b')
    ensures Settles(b, o, b', o')
  {
    HoldsLater(b, o, mid, interval, maxPayload, None);
    PulledHolds(b, mid, interval, maxPayload);
    SendHolds(Pulled(b), mid, b', o', interval, maxPayload, b.waiting.value, payload, fate, a);
    SendExtends(Pulled(b), mid, b', o', b.waiting.value, payload, fate, a);
    ExtendsThrough(b, Pulled(b), b');
  }

  /** Offering a reading does not read the session. */
  lemma {:induction false} OfferPolls(b: Book, o: Outside, mid: Outside, b': Book, o': Outside, interval: nat, maxPayload: nat,
                   id: nat, fate: Fate, a: Attempt)
    requires id < |b.fates| == |b.offered| && (b.waiting.Some? ==> b.waiting.value < |b.fates|)
    requires OfferStep(b, o, mid, b', o', interval, maxPayload, id, fate, a)
    ensures o'.polls == o.polls && Passed(o, o')
  {
  }

  /** A reading is taken and offered. */
  lemma {:induction false} MatchHolds(b: Book, o: Outside, p: Outside, mid: Outside, b': Book, o': Outside, interval: nat, maxPayload: nat,
                   r: Reading, fate: Fate, a: Attempt)
    requires Holds(b, o, interval, maxPayload, None) && Passed(o, p) && p == Drifted(o, p).(polls := o.polls + 1, heard := o.heard + [r])
    requires |b.fates| == |b.offered| && (b.waiting.Some? ==> b.waiting.value < |b.fates|)
    requires OfferStep(Taken(b, r), p, mid, b', o', interval, maxPayload, |b.fates|, fate, a)
    ensures Holds(b', o', interval, maxPayload, None) && Extends(b, b')
  {
    TakenHolds(b, o, p, interval, maxPayload, r);
    OfferHolds(Taken(b, r), p, mid, b', o', interval, maxPayload, |b.fates|, fate, a);
    OfferExtends(Taken(b, r), p, mid, b', o', interval, maxPayload, |b.fates|, fate, a);
    ExtendsThrough(b, Taken(b, r), b');
  }

  /** A failed publish puts its message behind the last four; nothing else touches the messages. */
  predicate Noted(errors: seq<string>, after: seq<string>, fate: Fate) {
    if fate == Errored then
      after != [] && after[..|after| - 1] == errors[if |errors| > 4 then |errors| - 4 else 0..]
    else after == errors
  }

  // ------------------------------------------------------------------ the thread

  class Bridge {
    const world: World
    const interval: nat
    const maxPayload: nat
    const deadline: nat
    var counters: Counters
    var errors: seq<string>
    var pending: Option<seq<byte>>
    var lastSent: nat
    ghost var book: Book

    constructor (world: World, interval: nat, maxPayload: nat, deadline: nat)
      requires world.o.heard == [] && world.o.handed == [] && world.o.admitted == world.o.refused == 0
      ensures Tidy() && Holds(book, world.o, interval, maxPayload, None)
      ensures this.world == world && this.interval == interval && this.maxPayload == maxPayload && this.deadline == deadline
    {
      this.world, this.interval, this.maxPayload, this.deadline := world, interval, maxPayload, deadline;
      counters, errors, pending, lastSent := Counters(0, 0, 0, 0), [], None, 0;
      book := Book(Counters(0, 0, 0, 0), 0, [], [], None, []);
    }

    /** The real fields agree with the history. */
    ghost predicate Tidy()
      reads this
    {
      counters == book.counters && lastSent == LastEnd(book.attempts)
      && |errors| == (if book.errors < 5 then book.errors else 5)
      && |book.offered| == |book.fates| && (pending.Some? <==> book.waiting.Some?)
      && (pending.Some? ==> Ready(book, book.waiting.value, pending.value, maxPayload))
    }

    /** `_send`, for reading `id`. */
    method Send(payload: seq<byte>, ghost id: nat) returns (ghost fate: Fate, ghost a: Attempt)
      requires Tidy() && id < |book.fates|
      modifies this`counters, this`errors, this`book, this`lastSent, world
      ensures Tidy() && SendStep(old(book), old(world.o), book, world.o, id, payload, fate, a)
      ensures Noted(old(errors), errors, fate)
    {
      a := Attempt(id, world.o.turn, 0, 0);
      var stop := world.StopIsSet();
      if stop {
        fate := Ignored;
        book := Settled(book, id, fate);
        return;
      }
      var ok := world.Charge();
      if !ok {
        counters := counters.(budget := counters.budget + 1);
        fate := BudgetDropped;
        book := Settled(book, id, fate);
        return;
      }
      fate, a := Deliver(payload, id, a.entered);
    }

    /** The publish itself, past the charge. */
    method Deliver(payload: seq<byte>, ghost id: nat, ghost entered: nat) returns (ghost fate: Fate, ghost a: Attempt)
      requires Tidy() && id < |book.fates|
      modifies this`counters, this`errors, this`book, this`lastSent, world
      ensures Tidy() && (fate == Published || fate == Errored) && Passed(old(world.o), world.o)
      ensures Noted(old(errors), errors, fate)
      ensures a.reading == id && a.entered == entered && old(world.o).now <= a.begun <= a.ended <= world.o.now
      ensures book == Tried(old(book), a, fate == Published)
      ensures world.o == Drifted(old(world.o), world.o).(handed := old(world.o).handed + [Delivery(payload, fate == Published)])
    {
      ghost var begun := world.o.now;
      var answer := world.Publish(payload);
      match answer {
        case Sent => counters := counters.(published := counters.published + 1);
        case Failed(message) => errors := (if |errors| > 4 then errors[|errors| - 4..] else errors) + [message];
      }
      lastSent := world.Monotonic();
      a := Attempt(id, entered, begun, lastSent);
      fate := if answer.Sent? then Published else Errored;
      book := Tried(book, a, answer.Sent?);
    }

    /** `_offer`, for reading `id`. */
    method Offer(reading: Reading, ghost id: nat) returns (ghost fate: Fate, ghost a: Attempt, ghost mid: Outside)
      requires Tidy() && id < |book.fates| && book.offered[id] == reading
      modifies this, world
      ensures Tidy() && OfferStep(old(book), old(world.o), mid, book, world.o, interval, maxPayload, id, fate, a)
    {
      a := Attempt(id, world.o.turn, 0, 0);
      var stop := world.StopIsSet();
      mid := world.o;
      if stop {
        fate := Ignored;
        book := Settled(book, id, fate);
        return;
      }
      if reading.Unserializable? || |reading.text| > maxPayload {
        counters := counters.(size := counters.size + 1);
        fate := SizeDropped;
        book := Settled(book, id, fate);
        return;
      }
      var now := world.Monotonic();
      mid := world.o;
      if now >= lastSent + interval {
        fate, a := Send(reading.text, id);
        return;
      }
      if pending.Some? {
        counters := counters.(rate := counters.rate + 1);
      }
      fate := Waiting;
      pending := Some(reading.text);
      book := Replaced(book, id);
    }

    /** What the flush makes of the pending reading: once the clock reads an interval past the last attempt
        it is settled, and before that nothing is done. */
    ghost predicate Flushed(b: Book, o: Outside, b': Book, o': Outside)
    {
      Extends(b, b')
      && if b.waiting.None? then b' == b && o' == o
         else if world.Later(o).now < LastEnd(b.attempts) + interval then b' == b && o' == world.Later(o)
         else Settles(b, o, b', o')
    }

    /** The middle of `_run`'s loop: an old reading whose interval is over goes out first. */
    method FlushPending()
      requires Tidy() && Holds(book, world.o, interval, maxPayload, None)
      modifies this, world
      ensures Tidy() && Holds(book, world.o, interval, maxPayload, None)
      ensures Flushed(old(book), old(world.o), book, world.o)
    {
      hide Holds, SendStep, Settles, Extends;
      ExtendsItself(book);
      if pending.Some? {
        ghost var (b, o) := (book, world.o);
        var now := world.Monotonic();
        ghost var mid := world.o;
        if now >= lastSent + interval {
          var payload := pending.value;
          book, pending := Pulled(book), None;
          ghost var fate, a := Send(payload, b.waiting.value);
          FlushHolds(b, o, mid, book, world.o, interval, maxPayload, payload, fate, a);
        } else {
          HoldsLater(b, o, mid, interval, maxPayload, None);
        }
      }
    }

    /** What listening makes of it: the session is read once; a match is taken and offered; anything else
        leaves the readings alone, and a session that is closed ends the bridge. */
    ghost predicate Listened(b: Book, o: Outside, done: bool, b': Book, o': Outside, fate: Fate, a: Attempt, mid: Outside)
      requires |b.fates| == |b.offered| && (b.waiting.Some? ==> b.waiting.value < |b.fates|)
    {
      var h := world.Hears(o);
      var p := AfterHearing(world.Later(o), h);
      (done <==> h.SessionClosed?)
      && (h.Match? ==> OfferStep(Taken(b, h.reading), p, mid, b', o', interval, maxPayload, |b.fates|, fate, a))
      && (h.NoMatch? ==> b' == b && o' == p)
      && (h.SessionClosed? ==> b' == b && o' == Stopped(p, "serial session closed"))
    }

    /** The rest of the loop: read from the session, and offer what it matched. */
    method Listen() returns (done: bool, ghost fate: Fate, ghost a: Attempt, ghost mid: Outside)
      requires Tidy() && Holds(book, world.o, interval, maxPayload, None)
      modifies this, world
      ensures Tidy() && Holds(book, world.o, interval, maxPayload, None)
      ensures Passed(old(world.o), world.o) && Extends(old(book), book)
      ensures Listened(old(book), old(world.o), done, book, world.o, fate, a, mid)
      ensures world.o.polls == old(world.o).polls + 1
    {
      hide Holds, OfferStep;
      ghost var (b, o) := (book, world.o);
      fate, a, mid := Ignored, Attempt(0, 0, 0, 0), o;
      var heard := world.Expect();
      if heard.Match? {
        ghost var p := world.o;
        book := Taken(book, heard.reading);
        fate, a, mid := Offer(heard.reading, |b.fates|);
        MatchHolds(b, o, p, mid, book, world.o, interval, maxPayload, heard.reading, fate, a);
        OfferPolls(Taken(b, heard.reading), p, mid, book, world.o, interval, maxPayload, |b.fates|, fate, a);
        done := false;
        return;
      }
      HoldsLater(b, o, world.Later(o), interval, maxPayload, None);
      HoldsPolled(b, world.Later(o), interval, maxPayload);
      ghost var p := world.o;
      assert p == world.Later(o).(polls := o.polls + 1);
      if heard.SessionClosed? {
        world.Stop("serial session closed");
      }
      HoldsLater(b, p, world.o, interval, maxPayload, None);
      done := heard.SessionClosed?;
    }

    /** Whether a stop is in force when the turn begins, or the duration is over when it looks at the clock. */
    ghost predicate Ends(o: Outside)
    {
      world.Later(o).stop.Some? || world.Later(world.Later(o)).now >= deadline
    }

    /** One turn of the loop. It ends the bridge exactly when it meets a stop, the deadline or a closed
        session; if it meets neither stop nor deadline it first settles the pending reading, should its
        interval be over, and then listens once. */
    method Turn() returns (done: bool, ghost before: Book, ghost at: Outside, ghost fate: Fate, ghost a: Attempt, ghost mid: Outside)
      requires Tidy() && Holds(book, world.o, interval, maxPayload, None)
      modifies this, world
      ensures Tidy() && Holds(book, world.o, interval, maxPayload, None)
      ensures Passed(old(world.o), world.o) && Extends(old(book), book)
      ensures done ==> world.o.stop.Some?
      ensures if Ends(old(world.o)) then done && book == old(book) && world.o.polls == old(world.o).polls
              else Flushed(old(book), world.Later(world.Later(old(world.o))), before, at)
                   && |before.fates| == |before.offered| && (before.waiting.Some? ==> before.waiting.value < |before.fates|)
                   && Listened(before, at, done, book, world.o, fate, a, mid) && world.o.polls == old(world.o).polls + 1
      ensures var (b, o) := (old(book), world.Later(world.Later(old(world.o))));
              !Ends(old(world.o)) && b.waiting.Some? && world.Later(o).now >= LastEnd(b.attempts) + interval ==>
                book.fates[b.waiting.value] in {Published, Errored, BudgetDropped, Ignored}
    {
      hide Holds, OfferStep, SendStep, Taken, AfterHearing;
      before, at, fate, a, mid := book, world.o, Ignored, Attempt(0, 0, 0, 0), world.o;
      done := Over();
      if !done {
        FlushPending();
        before, at := book, world.o;
        done, fate, a, mid := Listen();
      }
    }

    /** Whether a stop is in force, or the duration is over, which is then the reason. */
    method Over() returns (over: bool)
      requires Holds(book, world.o, interval, maxPayload, None)
      modifies world
      ensures Holds(book, world.o, interval, maxPayload, None)
      ensures over == Ends(old(world.o)) && (over ==> world.o.stop.Some?)
      ensures world.o == (if world.Later(old(world.o)).stop.Some? then world.Later(old(world.o))
                          else if over then Stopped(world.Later(world.Later(old(world.o))), "duration reached")
                          else world.Later(world.Later(old(world.o))))
    {
      ghost var o := world.o;
      over := world.StopIsSet();
      if !over {
        var now := world.Monotonic();
        if now >= deadline {
          world.Stop("duration reached");
          over := true;
        }
      }
      HoldsLater(book, o, world.o, interval, maxPayload, None);
    }

    /** `_run`, for up to `turns` turns of its loop; `done` when it ended by itself. Every turn but a last
        one that ends it listens once. */
    method Run(turns: nat) returns (done: bool)
      requires Tidy() && Holds(book, world.o, interval, maxPayload, None)
      modifies this, world
      ensures Tidy() && Holds(book, world.o, interval, maxPayload, None)
      ensures Passed(old(world.o), world.o) && Extends(old(book), book)
      ensures done ==> world.o.stop.Some?
      ensures if done then world.o.polls <= old(world.o).polls + turns else world.o.polls == old(world.o).polls + turns
    {
      hide Holds;
      var i := 0;
      while i < turns
        invariant Tidy() && Holds(book, world.o, interval, maxPayload, None)
        invariant Passed(old(world.o), world.o) && Extends(old(book), book)
        invariant i <= turns && world.o.polls == old(world.o).polls + i
      {
        ghost var before, at, fate, a, mid;
        done, before, at, fate, a, mid := Turn();
        if done {
          return;
        }
        i := i + 1;
      }
      done := false;
    }
  }

  // ------------------------------------------------------------------ what every run keeps

  /** Every reading matched is published, failed, dropped for one of three reasons, ignored because
      the bridge was stopping, or pending; never two of these. */
  lemma {:induction false} EveryReadingIsAccountedFor(b: Book, o: Outside, interval: nat, maxPayload: nat)
    requires Holds(b, o, interval, maxPayload, None)
    ensures var ignored := multiset(b.fates)[Ignored];
            |o.heard| == b.counters.published + b.errors + b.counters.rate + b.counters.budget + b.counters.size
                         + ignored + (if b.waiting.Some? then 1 else 0)
            && (ignored > 0 ==> o.stop.Some?)
    ensures |o.handed| == b.counters.published + b.errors == o.admitted && o.refused == b.counters.budget
  {
    FatesAddUp(b.fates);
    AtMostOneWaits(b.fates, Waiting, b.waiting);
    AtMostOneWaits(b.fates, InHand, None);
    if multiset(b.fates)[Ignored] > 0 {
      assert Ignored in multiset(b.fates);
      var i: nat :| i < |b.fates| && b.fates[i] == Ignored;
      assert FateFits(b, i, maxPayload, o.stop.Some?);
    }
  }

  /** The broker is never handed the same reading twice, nor anything that was not read. */
  lemma {:induction false} DeliveriesAreReadings(b: Book, o: Outside, interval: nat, maxPayload: nat, k: nat, l: nat)
    requires Holds(b, o, interval, maxPayload, None) && k < l < |o.handed|
    ensures var (i, j) := (b.attempts[k].reading, b.attempts[l].reading);
            i != j && i < |o.heard| && j < |o.heard|
            && o.heard[i] == Json(o.handed[k].payload) && o.heard[j] == Json(o.handed[l].payload)
  {
    assert MatchesAt(b.attempts, o.handed, k, b.offered, b.fates, maxPayload);
    assert MatchesAt(b.attempts, o.handed, l, b.offered, b.fates, maxPayload);
  }

  /** Any two attempts are an interval apart. */
  lemma {:induction false} AttemptsAreSpaced(b: Book, o: Outside, interval: nat, maxPayload: nat, hand: Option<nat>, k: nat, l: nat)
    requires Holds(b, o, interval, maxPayload, hand) && k < l < |b.attempts|
    ensures b.attempts[l].begun >= b.attempts[k].ended + interval
    decreases l
  {
    assert PacedAt(b.attempts, l, interval, Bound(o));
    if k < l - 1 {
      AttemptsAreSpaced(b, o, interval, maxPayload, hand, k, l - 1);
      assert PacedAt(b.attempts, l - 1, interval, Bound(o));
    }
  }

  /** No attempt, be it the only one, came from a `_send` entered after a stop. */
  lemma {:induction false} NoAttemptAfterStop(b: Book, o: Outside, interval: nat, maxPayload: nat, hand: Option<nat>, k: nat)
    requires Holds(b, o, interval, maxPayload, hand) && k < |b.attempts| && o.stop.Some?
    ensures b.attempts[k].entered <= o.stop.value
  {
    assert PacedAt(b.attempts, k, interval, Bound(o));
  }
}
