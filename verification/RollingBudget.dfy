/**
 RollingBudget (policy.py) and its limit edited mid-run (`_keep_budget` in server.py): the
 event lists pruned at every charge, against a budget that remembers everything.
*/
module RollingBudget {
  import opened Doubles

  datatype Event = Event(at: real, count: nat)

  /** The window's length, and the machine's subtraction of clock readings, which may round. */
  datatype Window = Window(length: real, minus: (real, real) -> real)
  {
    /** Still in the window at `now`. */
    predicate Recent(now: real, at: real) { minus(now, at) < length }

    /** As time goes on a difference does not get smaller: what has left the window stays out. */
    ghost predicate Steady() { forall a, b, at :: a <= b && Recent(b, at) ==> Recent(a, at) }

    /** No difference below `span` is rounded up to the window's length. */
    ghost predicate Covers(span: real) { forall now, at :: now - at < span ==> Recent(now, at) }
  }

  /** The charge's own clock reading comes before its lock, so `now` is any time at all: only the
      lemmas that need an orderly clock ask for `InOrder`. */
  datatype Op = Charge(target: string, count: nat, now: real) | SetLimit(limit: int)

  function Live(events: seq<Event>, now: real, window: Window): seq<Event> {
    if events == [] then []
    else
      var n := |events| - 1;
      var live := Live(events[..n], now, window);
      if window.Recent(now, events[n].at) then live + [events[n]] else live
  }

  function Sum(events: seq<Event>): (s: nat) {
    if events == [] then 0 else Sum(events[..|events| - 1]) + events[|events| - 1].count
  }

  function Of<T>(m: map<string, seq<T>>, target: string): seq<T> {
    if target in m then m[target] else []
  }

  // ------------------------------------------------------------------ the pruned budget

  datatype State = State(limit: int, events: map<string, seq<Event>>)

  predicate Admits(s: State, op: Op, window: Window)
    requires op.Charge?
  {
    Sum(Live(Of(s.events, op.target), op.now, window)) + op.count <= s.limit
  }

  /** A refused charge leaves even the stale events where they were. */
  function Do(s: State, op: Op, window: Window): State {
    match op
    case SetLimit(limit) => s.(limit := limit)
    case Charge(target, count, now) =>
      if Admits(s, op, window)
      then s.(events := s.events[target := Live(Of(s.events, target), now, window) + [Event(now, count)]])
      else s
  }

  function Run(limit: int, ops: seq<Op>, window: Window): State {
    if ops == [] then State(limit, map[])
    else Do(Run(limit, ops[..|ops| - 1], window), ops[|ops| - 1], window)
  }

  class RollingBudget {
    const window: Window
    var limit: int
    var events: map<string, seq<Event>>

    constructor (limit: int, window: Window)
      ensures this.window == window && Now() == State(limit, map[])
    {
      this.window, this.limit, this.events := window, limit, map[];
    }

    function Now(): State
      reads this
    {
      State(limit, events)
    }

    /** The locked part of `charge`. */
    method Charge(target: string, count: nat, now: real) returns (ok: bool)
      modifies this
      ensures Now() == Do(old(Now()), Op.Charge(target, count, now), window)
      ensures ok == Admits(old(Now()), Op.Charge(target, count, now), window)
      ensures ok <==> Spent(Of(old(events), target), now, window) + count <= old(limit)
      ensures if ok then Of(events, target) == Live(Of(old(events), target), now, window) + [Event(now, count)]
              else events == old(events)
      ensures forall t :: t != target ==> Of(events, t) == Of(old(events), t)
    {
      var live := Live(Of(events, target), now, window);
      var spent := Sum(live);
      if spent + count > limit {
        return false;
      }
      live := live + [Event(now, count)];
      events := events[target := live];
      return true;
    }
  }

  /** `_keep_budget`: the running budget with its memory, under the limit configured now. */
  method KeepBudget(budget: RollingBudget?, limit: int, window: Window) returns (kept: RollingBudget)
    requires budget != null ==> budget.window == window
    modifies budget
    ensures kept.window == window
    ensures budget == null ==> fresh(kept) && kept.Now() == State(limit, map[])
    ensures budget != null ==> kept == budget && kept.Now() == Do(old(budget.Now()), SetLimit(limit), window)
  {
    if budget == null {
      return new RollingBudget(limit, window);
    }
    budget.limit := limit;
    return budget;
  }

  // ------------------------------------------------------------------ the budget that never forgets

  /** An admitted charge and the limit it was admitted under. */
  datatype Admission = Admission(event: Event, limit: int)

  datatype Ledger = Ledger(limit: int, admitted: map<string, seq<Admission>>)

  function Events(h: seq<Admission>): (e: seq<Event>)
    ensures |e| == |h| && forall i :: 0 <= i < |h| ==> e[i] == h[i].event
  {
    seq(|h|, i requires 0 <= i < |h| => h[i].event)
  }

  predicate LedgerAdmits(f: Ledger, op: Op, window: Window)
    requires op.Charge?
  {
    Sum(Live(Events(Of(f.admitted, op.target)), op.now, window)) + op.count <= f.limit
  }

  function Enter(f: Ledger, op: Op, window: Window): Ledger {
    match op
    case SetLimit(limit) => f.(limit := limit)
    case Charge(target, count, now) =>
      if LedgerAdmits(f, op, window)
      then f.(admitted := f.admitted[target := Of(f.admitted, target) + [Admission(Event(now, count), f.limit)]])
      else f
  }

  function Book(limit: int, ops: seq<Op>, window: Window): Ledger {
    if ops == [] then Ledger(limit, map[])
    else Enter(Book(limit, ops[..|ops| - 1], window), ops[|ops| - 1], window)
  }

  // ------------------------------------------------------------------ what pruning forgets

  /** What the charges leave stored of all they admitted. */
  function Stored(h: seq<Event>, window: Window): seq<Event> {
    if h == [] then []
    else
      var n := |h| - 1;
      Live(Stored(h[..n], window), h[n].at, window) + [h[n]]
  }

  /** No later admission has pruned event i. */
  predicate Survives(h: seq<Event>, i: nat, window: Window)
    requires i < |h|
  {
    forall j :: i < j < |h| ==> window.Recent(h[j].at, h[i].at)
  }

  /** Live at `now` and not empty, but already pruned. */
  predicate Forgotten(h: seq<Event>, i: nat, now: real, window: Window)
    requires i < |h|
  {
    window.Recent(now, h[i].at) && h[i].count > 0 && !Survives(h, i, window)
  }

  lemma {:induction false} LiveAppend(a: seq<Event>, e: Event, now: real, window: Window)
    ensures Live(a + [e], now, window) == Live(a, now, window) + if window.Recent(now, e.at) then [e] else []
  {
    assert (a + [e])[..|a|] == a;
  }

  lemma {:induction false} SumAppend(a: seq<Event>, e: Event)
    ensures Sum(a + [e]) == Sum(a) + e.count
  {
    assert (a + [e])[..|a|] == a;
  }

  function Spent(h: seq<Event>, now: real, window: Window): nat { Sum(Live(h, now, window)) }

  /** What is spent is what the events still in the window add up to: taken one at a time, each counts once or
      not at all. */
  lemma {:induction false} SpentAppend(a: seq<Event>, e: Event, now: real, window: Window)
    ensures Spent(a + [e], now, window) == Spent(a, now, window) + if window.Recent(now, e.at) then e.count else 0
  {
    LiveAppend(a, e, now, window);
    if window.Recent(now, e.at) { SumAppend(Live(a, now, window), e); }
  }

  /** The survivors among the first m admissions, in order. */
  function Survivors(h: seq<Event>, m: nat, window: Window): seq<Event>
    requires m <= |h|
  {
    if m == 0 then []
    else
      var earlier := Survivors(h, m - 1, window);
      if Survives(h, m - 1, window) then earlier + [h[m - 1]] else earlier
  }

  /** What is stored is what no later admission was a window away from. */
  lemma {:induction false} StoredIsSurvivors(h: seq<Event>, window: Window)
    ensures Stored(h, window) == Survivors(h, |h|, window)
  {
    if h != [] {
      var (init, last) := (h[..|h| - 1], h[|h| - 1]);
      assert h == init + [last];
      StoredIsSurvivors(init, window);
      PruneSurvivors(init, last, |init|, window);
    }
  }

  lemma {:induction false} SurvivesOneMore(init: seq<Event>, last: Event, i: nat, window: Window)
    requires i < |init|
    ensures Survives(init + [last], i, window) <==> Survives(init, i, window) && window.Recent(last.at, init[i].at)
  {
    var h := init + [last];
    assert h[|init|] == last;
    assert forall j :: i < j < |init| ==> h[j] == init[j];
  }

  lemma {:induction false} PruneSurvivors(init: seq<Event>, last: Event, m: nat, window: Window)
    requires m <= |init|
    ensures Live(Survivors(init, m, window), last.at, window) == Survivors(init + [last], m, window)
  {
    if m > 0 {
      var i := m - 1;
      PruneSurvivors(init, last, i, window);
      SurvivesOneMore(init, last, i, window);
      LiveAppend(Survivors(init, i, window), init[i], last.at, window);
    }
  }

  /** Whatever the clock did, the pruned list undercounts at `now` exactly when it has forgotten
      something live. */
  lemma {:induction false} PruningIsExactIff(h: seq<Event>, now: real, window: Window)
    ensures Spent(Stored(h, window), now, window) <= Spent(h, now, window)
    ensures Spent(Stored(h, window), now, window) == Spent(h, now, window)
            <==> forall i: nat :: i < |h| ==> !Forgotten(h, i, now, window)
  {
    StoredIsSurvivors(h, window);
    SurvivorsSpend(h, |h|, now, window);
    assert h[..|h|] == h;
  }

  predicate NoneForgotten(h: seq<Event>, m: nat, now: real, window: Window)
    requires m <= |h|
  {
    forall i: nat :: i < m ==> !Forgotten(h, i, now, window)
  }

  lemma {:induction false} OneMoreForgotten(h: seq<Event>, i: nat, now: real, window: Window)
    requires i < |h|
    ensures NoneForgotten(h, i + 1, now, window) <==> NoneForgotten(h, i, now, window) && !Forgotten(h, i, now, window)
  {
  }

  /** One more admission, pruned or not, against the full history. */
  lemma {:induction false} OneMoreSpent(kept: seq<Event>, all: seq<Event>, e: Event, survives: bool, now: real, window: Window)
    ensures var kept' := if survives then kept + [e] else kept;
            Spent(all + [e], now, window) - Spent(kept', now, window)
            == Spent(all, now, window) - Spent(kept, now, window) + if !survives && window.Recent(now, e.at) then e.count else 0
  {
    SpentAppend(all, e, now, window);
    SpentAppend(kept, e, now, window);
  }

  lemma {:induction false} SurvivorsSpend(h: seq<Event>, m: nat, now: real, window: Window)
    requires m <= |h|
    ensures var (kept, all) := (Spent(Survivors(h, m, window), now, window), Spent(h[..m], now, window));
            kept <= all && (kept == all <==> NoneForgotten(h, m, now, window))
  {
    hide Spent, Survives, NoneForgotten;
    if m == 0 {
      NoneForgottenYet(h, now, window);
    } else {
      var i := m - 1;
      SurvivorsSpend(h, i, now, window);
      assert h[..m] == h[..i] + [h[i]];
      OneMoreSpent(Survivors(h, i, window), h[..i], h[i], Survives(h, i, window), now, window);
      OneMoreForgotten(h, i, now, window);
    }
  }

  lemma {:induction false} NoneForgottenYet(h: seq<Event>, now: real, window: Window)
    ensures NoneForgotten(h, 0, now, window)
  {
  }

  // ------------------------------------------------------------------ any run, any readings

  /** What the run itself admitted to a target, with the limits then in force. */
  function Admitted(limit: int, ops: seq<Op>, target: string, window: Window): seq<Admission> {
    if ops == [] then []
    else
      var (init, op) := (ops[..|ops| - 1], ops[|ops| - 1]);
      var s := Run(limit, init, window);
      Admitted(limit, init, target, window)
      + if op.Charge? && op.target == target && Admits(s, op, window) then [Admission(Event(op.now, op.count), s.limit)] else []
  }

  lemma {:induction false} EventsAppend(h: seq<Admission>, a: Admission)
    ensures Events(h + [a]) == Events(h) + [a.event]
  {
  }

  lemma {:induction false} StoredAppend(h: seq<Event>, e: Event, window: Window)
    ensures Stored(h + [e], window) == Live(Stored(h, window), e.at, window) + [e]
  {
    assert (h + [e])[..|h|] == h;
  }

  lemma {:induction false} StoreOneMore(s: State, h: seq<Admission>, op: Op, window: Window)
    requires op.Charge? && Admits(s, op, window) && Of(s.events, op.target) == Stored(Events(h), window)
    ensures Of(Do(s, op, window).events, op.target)
            == Stored(Events(h + [Admission(Event(op.now, op.count), s.limit)]), window)
  {
    EventsAppend(h, Admission(Event(op.now, op.count), s.limit));
    StoredAppend(Events(h), Event(op.now, op.count), window);
  }

  /** What a budget remembers is what the charges left of all it admitted. */
  lemma {:induction false} RunStoresAdmitted(limit: int, ops: seq<Op>, target: string, window: Window)
    ensures Of(Run(limit, ops, window).events, target) == Stored(Events(Admitted(limit, ops, target, window)), window)
  {
    hide Live, Stored, Sum;
    if ops == [] {
      assert Admitted(limit, ops, target, window) == [] && Events([]) == [];
      StoredNothing(window);
    } else {
      var (init, op) := (ops[..|ops| - 1], ops[|ops| - 1]);
      var h := Admitted(limit, init, target, window);
      RunStoresAdmitted(limit, init, target, window);
      if op.Charge? && op.target == target && Admits(Run(limit, init, window), op, window) {
        StoreOneMore(Run(limit, init, window), h, op, window);
      } else {
        assert h + [] == h;
      }
    }
  }

  lemma {:induction false} StoredNothing(window: Window)
    ensures Stored([], window) == []
  {
  }

  /** The decision of a budget that forgets nothing. */
  predicate FullAdmits(h: seq<Event>, limit: int, op: Op, window: Window)
    requires op.Charge?
  {
    Spent(h, op.now, window) + op.count <= limit
  }

  /** Whatever the clock readings were, the pruned list never refuses what the full history would
      admit; and it decides the next charge as the full history would, whatever the limit is set to,
      exactly when nothing live has been pruned. */
  lemma {:induction false} ChargeDecidedAsFullIff(limit: int, ops: seq<Op>, op: Op, window: Window)
    requires op.Charge?
    ensures var (s, h) := (Run(limit, ops, window), Events(Admitted(limit, ops, op.target, window)));
            (forall l: int :: FullAdmits(h, l, op, window) ==> Admits(s.(limit := l), op, window))
            && ((forall l: int :: FullAdmits(h, l, op, window) == Admits(s.(limit := l), op, window))
                <==> NoneForgotten(h, |h|, op.now, window))
  {
    var (s, h) := (Run(limit, ops, window), Events(Admitted(limit, ops, op.target, window)));
    RunStoresAdmitted(limit, ops, op.target, window);
    PruningIsExactIff(h, op.now, window);
    var least := Spent(Stored(h, window), op.now, window) + op.count;
    assert Admits(s.(limit := least), op, window);
    assert FullAdmits(h, least, op, window) <==> NoneForgotten(h, |h|, op.now, window);
  }

  /** Each charge was admitted within its limit, by what was stored before it. */
  lemma {:induction false} AdmittedWithinLimit(limit: int, ops: seq<Op>, target: string, window: Window, k: nat)
    requires k < |Admitted(limit, ops, target, window)|
    ensures var h := Admitted(limit, ops, target, window);
            Spent(Stored(Events(h[..k]), window), h[k].event.at, window) + h[k].event.count <= h[k].limit
  {
    var init := ops[..|ops| - 1];
    var (h, earlier) := (Admitted(limit, ops, target, window), Admitted(limit, init, target, window));
    if k < |earlier| {
      AdmittedWithinLimit(limit, init, target, window, k);
      assert h[..k] == earlier[..k];
    } else {
      RunStoresAdmitted(limit, init, target, window);
      assert h[..k] == earlier;
    }
  }

  // ------------------------------------------------------------------ the cap on a window

  /** An interval of time, its start included and its end not. */
  datatype Span = Span(start: real, length: real)
  {
    predicate Holds(at: real) { start <= at < start + length }
  }

  /** Units admitted in an interval. */
  function Used(h: seq<Event>, span: Span): nat {
    if h == [] then 0
    else
      var n := |h| - 1;
      Used(h[..n], span) + if span.Holds(h[n].at) then h[n].count else 0
  }

  /** Those that a charge at `now` does not count: pruned, or by its subtraction too old. */
  function Lost(h: seq<Event>, m: nat, span: Span, now: real, window: Window): nat
    requires m <= |h|
  {
    if m == 0 then 0
    else
      var e := h[m - 1];
      Lost(h, m - 1, span, now, window)
      + if span.Holds(e.at) && !(Survives(h, m - 1, window) && window.Recent(now, e.at)) then e.count else 0
  }

  /** Units that a charge at `now` counts, inside the interval or outside it. */
  function Counted(kept: seq<Event>, span: Span, inside: bool, now: real, window: Window): nat {
    if kept == [] then 0
    else
      var (n, e) := (|kept| - 1, kept[|kept| - 1]);
      Counted(kept[..n], span, inside, now, window)
      + if span.Holds(e.at) == inside && window.Recent(now, e.at) then e.count else 0
  }

  lemma {:induction false} UsedAppend(h: seq<Event>, e: Event, span: Span)
    ensures Used(h + [e], span) == Used(h, span) + if span.Holds(e.at) then e.count else 0
  {
    assert (h + [e])[..|h|] == h;
  }

  lemma {:induction false} CountedAppend(kept: seq<Event>, e: Event, span: Span, inside: bool, now: real, window: Window)
    ensures Counted(kept + [e], span, inside, now, window)
            == Counted(kept, span, inside, now, window) + if span.Holds(e.at) == inside && window.Recent(now, e.at) then e.count else 0
  {
    assert (kept + [e])[..|kept|] == kept;
  }

  /** What an interval holds is counted or lost. */
  lemma {:induction false} UsedSplits(h: seq<Event>, m: nat, span: Span, now: real, window: Window)
    requires m <= |h|
    ensures Used(h[..m], span) == Counted(Survivors(h, m, window), span, true, now, window) + Lost(h, m, span, now, window)
  {
    if m > 0 {
      var i := m - 1;
      UsedSplits(h, i, span, now, window);
      assert h[..m] == h[..i] + [h[i]];
      UsedAppend(h[..i], h[i], span);
      CountedAppend(Survivors(h, i, window), h[i], span, true, now, window);
    }
  }

  /** What a charge counts is inside or outside. */
  lemma {:induction false} SpentSplits(kept: seq<Event>, span: Span, now: real, window: Window)
    ensures Spent(kept, now, window) == Counted(kept, span, true, now, window) + Counted(kept, span, false, now, window)
  {
    if kept != [] {
      var n := |kept| - 1;
      SpentSplits(kept[..n], span, now, window);
      assert kept == kept[..n] + [kept[n]];
      SpentAppend(kept[..n], kept[n], now, window);
    }
  }

  /** An interval holds more than a charge counts by what it has lost, less what is counted outside. */
  lemma {:induction false} UsedAgainstSpent(h: seq<Event>, span: Span, now: real, window: Window)
    ensures var kept := Stored(h, window);
            Used(h, span) + Counted(kept, span, false, now, window) == Spent(kept, now, window) + Lost(h, |h|, span, now, window)
  {
    UsedSplits(h, |h|, span, now, window);
    StoredIsSurvivors(h, window);
    SpentSplits(Stored(h, window), span, now, window);
    assert h[..|h|] == h;
  }

  /** With one more charge at `now`, no interval of a window's length around it holds more than the limit. */
  ghost predicate CappedAround(h: seq<Event>, op: Op, limit: int, window: Window)
    requires op.Charge?
  {
    forall span: Span :: span.length == window.length && span.Holds(op.now) ==> Used(h, span) + op.count <= limit
  }

  /** Whatever the clock readings were, and however their differences are rounded: every limit under
      which the next charge is admitted caps every interval around it exactly when no interval has lost
      more than is counted outside it. */
  lemma {:induction false} WindowsCappedIff(limit: int, ops: seq<Op>, op: Op, window: Window)
    requires op.Charge?
    ensures var s := Run(limit, ops, window);
            var (h, kept) := (Events(Admitted(limit, ops, op.target, window)), Of(s.events, op.target));
            (forall l: int :: Admits(s.(limit := l), op, window) ==> CappedAround(h, op, l, window))
            <==> (forall span: Span :: span.length == window.length && span.Holds(op.now) ==>
                    Lost(h, |h|, span, op.now, window) <= Counted(kept, span, false, op.now, window))
  {
    var s := Run(limit, ops, window);
    var (h, kept) := (Events(Admitted(limit, ops, op.target, window)), Of(s.events, op.target));
    RunStoresAdmitted(limit, ops, op.target, window);
    forall span: Span
      ensures Lost(h, |h|, span, op.now, window) <= Counted(kept, span, false, op.now, window)
              <==> Used(h, span) <= Spent(kept, op.now, window)
    {
      UsedAgainstSpent(h, span, op.now, window);
    }
    var least := Spent(kept, op.now, window) + op.count;
    assert Admits(s.(limit := least), op, window);
  }

  lemma {:induction false} NothingAfter(h: seq<Event>, k: nat, span: Span)
    requires k <= |h| && forall j :: k <= j < |h| ==> !span.Holds(h[j].at)
    ensures Used(h, span) == Used(h[..k], span)
  {
    if k < |h| {
      NothingAfter(h[..|h| - 1], k, span);
      assert h[..|h| - 1][..k] == h[..k];
    } else {
      assert h[..k] == h;
    }
  }

  /** Charge k is the last admitted one of an interval. */
  predicate LastWithin(h: seq<Admission>, k: nat, span: Span) {
    k < |h| && span.Holds(h[k].event.at) && forall j :: k < j < |h| ==> !span.Holds(h[j].event.at)
  }

  /** Any readings, any rounding: an interval admits at most the limit in force at its last admitted
      charge and, beyond it, what that charge did not count of it. */
  lemma {:induction false} EveryWindowIsBounded(limit: int, ops: seq<Op>, target: string, window: Window, span: Span, k: nat)
    requires LastWithin(Admitted(limit, ops, target, window), k, span)
    ensures var h := Admitted(limit, ops, target, window);
            Used(Events(h), span) <= h[k].limit + Lost(Events(h[..k]), k, span, h[k].event.at, window)
  {
    var h := Admitted(limit, ops, target, window);
    var (all, before, e) := (Events(h), Events(h[..k]), h[k].event);
    NothingAfter(all, k + 1, span);
    assert all[..k + 1] == before + [e];
    UsedAppend(before, e, span);
    UsedAgainstSpent(before, span, e.at, window);
    AdmittedWithinLimit(limit, ops, target, window, k);
  }

  // ------------------------------------------------------------------ readings in order

  predicate InOrder(ops: seq<Op>) {
    forall i, j :: 0 <= i < j < |ops| && ops[i].Charge? && ops[j].Charge? && ops[i].target == ops[j].target ==>
      ops[i].now <= ops[j].now
  }

  predicate NotBefore(h: seq<Event>, now: real) {
    forall i :: 0 <= i < |h| ==> h[i].at <= now
  }

  lemma {:induction false} InOrderPrefix(ops: seq<Op>, n: nat)
    requires InOrder(ops) && n <= |ops|
    ensures InOrder(ops[..n])
  {
  }

  lemma {:induction false} InOrderSkips(ops: seq<Op>, op: Op)
    requires InOrder(ops + [op]) && ops != []
    ensures InOrder(ops[..|ops| - 1] + [op])
    ensures var last := ops[|ops| - 1]; op.Charge? && last.Charge? && last.target == op.target ==> last.now <= op.now
  {
    var (n, all, fewer) := (|ops| - 1, ops + [op], ops[..|ops| - 1] + [op]);
    assert all[n] == ops[n] && all[n + 1] == op;
    assert forall i :: 0 <= i < n ==> fewer[i] == all[i];
    assert fewer[n] == op;
  }

  lemma {:induction false} AdmittedNotAfter(limit: int, ops: seq<Op>, op: Op, window: Window)
    requires op.Charge? && InOrder(ops + [op])
    ensures NotBefore(Events(Admitted(limit, ops, op.target, window)), op.now)
  {
    if ops != [] {
      InOrderSkips(ops, op);
      AdmittedNotAfter(limit, ops[..|ops| - 1], op, window);
    }
  }

  lemma {:induction false} NothingForgotten(h: seq<Event>, now: real, window: Window)
    requires NotBefore(h, now) && window.Steady()
    ensures NoneForgotten(h, |h|, now, window)
  {
  }

  /** The pruned lists decide every charge of every orderly run, limits edited at will, exactly as
      the whole history would. */
  lemma {:induction false} PrunedDecidesAsFull(limit: int, ops: seq<Op>, op: Op, window: Window)
    requires op.Charge? && InOrder(ops + [op]) && window.Steady()
    ensures var s := Run(limit, ops, window);
            Admits(s, op, window) == FullAdmits(Events(Admitted(limit, ops, op.target, window)), s.limit, op, window)
  {
    var (s, h) := (Run(limit, ops, window), Events(Admitted(limit, ops, op.target, window)));
    AdmittedNotAfter(limit, ops, op, window);
    NothingForgotten(h, op.now, window);
    ChargeDecidedAsFullIff(limit, ops, op, window);
    assert s.(limit := s.limit) == s;
  }

  /** So an orderly run and the budget that never forgets admit the very same charges. */
  lemma {:induction false} OrderlyRunsKeepTheBook(limit: int, ops: seq<Op>, target: string, window: Window)
    requires InOrder(ops) && window.Steady()
    ensures Of(Book(limit, ops, window).admitted, target) == Admitted(limit, ops, target, window)
    ensures Book(limit, ops, window).limit == Run(limit, ops, window).limit
  {
    if ops != [] {
      var (init, op) := (ops[..|ops| - 1], ops[|ops| - 1]);
      InOrderPrefix(ops, |init|);
      OrderlyRunsKeepTheBook(limit, init, target, window);
      if op.Charge? && op.target == target {
        assert init + [op] == ops;
        PrunedDecidesAsFull(limit, init, op, window);
      }
    }
  }

  lemma {:induction false} AdmittedInOrder(limit: int, ops: seq<Op>, target: string, window: Window, i: nat, j: nat)
    requires InOrder(ops) && i < j < |Admitted(limit, ops, target, window)|
    ensures var h := Admitted(limit, ops, target, window); h[i].event.at <= h[j].event.at
  {
    hide Admits, Run;
    var (init, op) := (ops[..|ops| - 1], ops[|ops| - 1]);
    var earlier := Admitted(limit, init, target, window);
    InOrderPrefix(ops, |init|);
    if j < |earlier| {
      AdmittedInOrder(limit, init, target, window, i, j);
    } else {
      assert init + [op] == ops;
      AdmittedNotAfter(limit, init, op, window);
      assert Events(earlier)[i] == earlier[i].event;
    }
  }

  lemma {:induction false} NothingLost(h: seq<Event>, m: nat, span: Span, now: real, window: Window)
    requires m <= |h| && NotBefore(h, now) && span.Holds(now) && window.Covers(span.length) && window.Steady()
    ensures Lost(h, m, span, now, window) == 0
  {
    if m > 0 {
      NothingLost(h, m - 1, span, now, window);
      if span.Holds(h[m - 1].at) { assert now - h[m - 1].at < span.length && window.Recent(now, h[m - 1].at); }
    }
  }

  /** With readings in order every interval is capped whose length the subtraction covers. */
  lemma {:induction false} EveryWindowIsCapped(limit: int, ops: seq<Op>, target: string, window: Window, span: Span, k: nat)
    requires InOrder(ops) && window.Steady() && window.Covers(span.length)
    requires LastWithin(Admitted(limit, ops, target, window), k, span)
    ensures var h := Admitted(limit, ops, target, window); Used(Events(h), span) <= h[k].limit
  {
    var h := Admitted(limit, ops, target, window);
    forall i | 0 <= i < k ensures Events(h[..k])[i].at <= h[k].event.at {
      AdmittedInOrder(limit, ops, target, window, i, k);
    }
    NothingLost(Events(h[..k]), k, span, h[k].event.at, window);
    EveryWindowIsBounded(limit, ops, target, window, span, k);
  }

  // ------------------------------------------------------------------ doubles

  /** A minute, with the subtraction of doubles. */
  const MINUTE: Window := Window(60.0, MINUS)

  /** 2^-48 short of a minute. */
  const SAFE: real := 60.0 - 16.0 / SCALE

  lemma {:induction false} MinuteIsSteady()
    ensures MINUTE.Steady()
  {
    forall a, b, at | a <= b && MINUTE.Recent(b, at) ensures MINUTE.Recent(a, at) {
      RoundedIsMonotone((a - at) * SCALE, (b - at) * SCALE);
    }
  }

  /** Below `SAFE` a difference rounds below a minute; at it, to the minute. */
  lemma {:induction false} MinuteRounds(y: real)
    ensures y < SAFE * SCALE ==> Rounded(y) < 60.0 * SCALE
    ensures y == SAFE * SCALE ==> Rounded(y) == 60.0 * SCALE
  {
    Powers();
    if SCALE * 32.0 <= y < SAFE * SCALE {
      BelowSafe(y);
    } else if y < SCALE * 32.0 {
      RoundedIsMonotone(y, SCALE * 32.0);
      RoundsTo(SCALE * 32.0, 5, 4503599627370496);
    } else if y == SAFE * SCALE {
      RoundsTo(y, 5, 8444249301319680);
    }
  }

  lemma {:induction false} Powers()
    ensures Doubled(SCALE, 5) == 32.0 * SCALE && Doubled(2.0 * SCALE, 5) == 64.0 * SCALE && Doubled(1.0, 5) == 32.0
    ensures Doubled(8444249301319680.0, 5) == 60.0 * SCALE && Doubled(4503599627370496.0, 5) == 32.0 * SCALE
  {
    Halvings();
    DoubledScales(SCALE, 5);
    DoubledScales(2.0 * SCALE, 5);
    DoubledScales(8444249301319680.0, 5);
    DoubledScales(4503599627370496.0, 5);
  }

  lemma {:induction false} BelowSafe(y: real)
    requires SCALE * 32.0 <= y < SAFE * SCALE
    ensures Rounded(y) < 60.0 * SCALE
  {
    var n := Nearest(y / 32.0);
    NearestIsClose(y / 32.0);
    Halved(y);
  }

  /** Five halvings. */
  lemma {:induction false} Halved(y: real)
    requires SCALE * 32.0 <= y < SCALE * 64.0
    ensures Rounded(y) == 32.0 * Nearest(y / 32.0) as real
  {
    hide Nearest;
    assert Rounded(y) == 2.0 * Rounded(y / 2.0);
    assert Rounded(y / 2.0) == 2.0 * Rounded(y / 4.0);
    assert Rounded(y / 4.0) == 2.0 * Rounded(y / 8.0);
    assert Rounded(y / 8.0) == 2.0 * Rounded(y / 16.0);
    assert Rounded(y / 16.0) == 2.0 * Rounded(y / 32.0);
  }

  /** The minute of doubles covers exactly the intervals up to `SAFE`, not quite the minute. */
  lemma {:induction false} MinuteCoversIff(length: real)
    ensures MINUTE.Covers(length) <==> length <= SAFE
  {
    if length <= SAFE {
      forall now, at | now - at < length ensures MINUTE.Recent(now, at) { MinuteRounds((now - at) * SCALE); }
    } else {
      MinuteRounds(SAFE * SCALE);
      assert SAFE - 0.0 < length && !MINUTE.Recent(SAFE, 0.0);
    }
  }

  // ------------------------------------------------------------------ two runs that overshoot

  lemma {:induction false} OneEvent(e: Event, now: real, window: Window)
    ensures Spent([], now, window) == 0
    ensures Live([e], now, window) == if window.Recent(now, e.at) then [e] else []
    ensures Spent([e], now, window) == if window.Recent(now, e.at) then e.count else 0
  {
    LiveAppend([], e, now, window);
    SpentAppend([], e, now, window);
    assert [] + [e] == [e];
  }

  /** The first two charges of a run to one target, the second of which finds the first too old. */
  lemma {:induction false} TwoCharges(limit: nat, a: Op, b: Op, window: Window)
    requires a.Charge? && b.Charge? && a.target == b.target && a.count <= limit && b.count <= limit
    requires !window.Recent(b.now, a.now)
    ensures var ops := [a, b];
            var (e, f) := (Event(a.now, a.count), Event(b.now, b.count));
            Admitted(limit, ops, a.target, window) == [Admission(e, limit), Admission(f, limit)]
            && Run(limit, ops, window) == State(limit, map[a.target := [f]])
  {
    var (e, f) := (Event(a.now, a.count), Event(b.now, b.count));
    assert [a, b][..1] == [a] && [a][..0] == [];
    OneEvent(e, a.now, window);
    assert [] + [e] == [e] && [] + [f] == [f] && [] + [Admission(e, limit)] == [Admission(e, limit)];
    assert Run(limit, [a], window) == State(limit, map[a.target := [e]]);
    assert Admitted(limit, [a], a.target, window) == [Admission(e, limit)];
    OneEvent(e, b.now, window);
  }

  const LATE: seq<Op> := [Charge("p", 2, 0.0), Charge("p", 1, 60.0), Charge("p", 1, 59.0)]

  lemma {:induction false} LateMinute()
    ensures !MINUTE.Recent(60.0, 0.0) && MINUTE.Recent(59.0, 0.0) && MINUTE.Recent(59.0, 60.0)
  {
    WholesAdd(60, 0);
    WholesAdd(59, 0);
  }

  lemma {:induction false} LateAdmitted()
    ensures Admitted(2, LATE, "p", MINUTE)
            == [Admission(Event(0.0, 2), 2), Admission(Event(60.0, 1), 2), Admission(Event(59.0, 1), 2)]
  {
    hide Live, Sum;
    LateMinute();
    assert LATE[..2] == [LATE[0], LATE[1]];
    TwoCharges(2, LATE[0], LATE[1], MINUTE);
    OneEvent(Event(60.0, 1), 59.0, MINUTE);
    assert Admits(Run(2, LATE[..2], MINUTE), LATE[2], MINUTE);
  }

  /** With readings out of order a window does overflow: the charge at 60 prunes the two units spent
      at 0, and a caller that read its clock at 59 then gets past a limit of 2, which the full history
      would have refused; three units are admitted from 0 to before 60. */
  lemma {:induction false} LateReadingOvershoots()
    ensures var h := Admitted(2, LATE, "p", MINUTE);
            |h| == 3 && LastWithin(h, 2, Span(0.0, 60.0)) && h[2].limit == 2 && Used(Events(h), Span(0.0, 60.0)) == 3
            && !FullAdmits(Events(h[..2]), 2, LATE[2], MINUTE)
  {
    hide Admitted, Live, Sum, Used;
    LateAdmitted();
    LateMinute();
    var h := Admitted(2, LATE, "p", MINUTE);
    LateWindow(Event(0.0, 2), Event(60.0, 1), Event(59.0, 1));
    assert Events(h) == [Event(0.0, 2)] + [Event(60.0, 1)] + [Event(59.0, 1)];
    assert Events(h[..2]) == [Event(0.0, 2)] + [Event(60.0, 1)];
  }

  lemma {:induction false} LateWindow(e: Event, f: Event, g: Event)
    requires e == Event(0.0, 2) && f == Event(60.0, 1) && g == Event(59.0, 1)
    ensures Spent([e] + [f], 59.0, MINUTE) == 3 && Used([e] + [f] + [g], Span(0.0, 60.0)) == 3
  {
    LateMinute();
    OneEvent(e, 59.0, MINUTE);
    SpentAppend([e], f, 59.0, MINUTE);
    assert [] + [e] == [e];
    UsedAppend([], e, Span(0.0, 60.0));
    UsedAppend([e], f, Span(0.0, 60.0));
    UsedAppend([e] + [f], g, Span(0.0, 60.0));
  }

  /** The doubles nearest to 2.583475203085751 and 62.58347520308575: `SAFE` apart, a minute by their
      rounded difference. */
  const EARLIER: real := Units(11634937961937904)
  const LATER: real := Units(281850915604167648)

  /** Readings in order do not help at the very edge: two charges less than a minute apart, each of the
      whole limit, are both admitted. */
  lemma {:induction false} EdgeReadingOvershoots()
    ensures var ops := [Charge("p", 1, EARLIER), Charge("p", 1, LATER)];
            var h := Admitted(1, ops, "p", MINUTE);
            InOrder(ops) && LATER - EARLIER < 60.0 && |h| == 2 && LastWithin(h, 1, Span(EARLIER, 60.0)) && h[1].limit == 1
            && Used(Events(h), Span(EARLIER, 60.0)) == 2
  {
    var (a, b) := (Charge("p", 1, EARLIER), Charge("p", 1, LATER));
    var (e, f, span) := (Event(EARLIER, 1), Event(LATER, 1), Span(EARLIER, 60.0));
    assert LATER - EARLIER == SAFE;
    MinuteRounds(SAFE * SCALE);
    assert !MINUTE.Recent(LATER, EARLIER);
    TwoCharges(1, a, b, MINUTE);
    assert Events([Admission(e, 1), Admission(f, 1)]) == [e] + [f];
    UsedAppend([], e, span);
    UsedAppend([e], f, span);
    assert [] + [e] == [e];
  }

  // ------------------------------------------------------------------ targets, memory

  /** The charges of one target and every change of limit. */
  function Restrict(ops: seq<Op>, target: string): seq<Op> {
    if ops == [] then []
    else
      var op := ops[|ops| - 1];
      Restrict(ops[..|ops| - 1], target) + if op.Charge? && op.target != target then [] else [op]
  }

  /** Whatever is charged to other targets, this one fares as if it were alone. */
  lemma {:induction false} TargetsAreIndependent(limit: int, ops: seq<Op>, target: string, window: Window)
    ensures var (s, alone) := (Run(limit, ops, window), Run(limit, Restrict(ops, target), window));
            s.limit == alone.limit && Of(s.events, target) == Of(alone.events, target)
  {
    if ops != [] {
      var (init, op) := (ops[..|ops| - 1], ops[|ops| - 1]);
      TargetsAreIndependent(limit, init, target, window);
      if op.Charge? && op.target != target {
        assert Restrict(ops, target) == Restrict(init, target);
      } else {
        assert (Restrict(init, target) + [op])[..|Restrict(init, target)|] == Restrict(init, target);
      }
    }
  }

  /** The largest limit ever in force, at least 0. */
  function Largest(limit: int, ops: seq<Op>): nat {
    if ops == [] then if limit > 0 then limit else 0
    else
      var (most, op) := (Largest(limit, ops[..|ops| - 1]), ops[|ops| - 1]);
      if op.SetLimit? && op.limit > most then op.limit else most
  }

  predicate Positive(events: seq<Event>) { forall i :: 0 <= i < |events| ==> events[i].count > 0 }

  lemma {:induction false} LengthWithinSum(events: seq<Event>)
    requires Positive(events)
    ensures |events| <= Sum(events)
  {
    if events != [] { LengthWithinSum(events[..|events| - 1]); }
  }

  lemma {:induction false} LiveStaysPositive(events: seq<Event>, now: real, window: Window)
    requires Positive(events)
    ensures Positive(Live(events, now, window))
  {
    if events != [] { LiveStaysPositive(events[..|events| - 1], now, window); }
  }

  /** With positive charges no list outgrows the largest limit used, whatever the clock does. */
  lemma {:induction false} MemoryIsBounded(limit: int, ops: seq<Op>, target: string, window: Window)
    requires forall i :: 0 <= i < |ops| && ops[i].Charge? ==> ops[i].count > 0
    ensures var s := Run(limit, ops, window);
            s.limit <= Largest(limit, ops) && Positive(Of(s.events, target))
            && |Of(s.events, target)| <= Sum(Of(s.events, target)) <= Largest(limit, ops)
  {
    if ops != [] {
      var (init, op) := (ops[..|ops| - 1], ops[|ops| - 1]);
      MemoryIsBounded(limit, init, target, window);
      var s := Run(limit, init, window);
      if op.Charge? && op.target == target && Admits(s, op, window) {
        var live := Live(Of(s.events, target), op.now, window);
        LiveStaysPositive(Of(s.events, target), op.now, window);
        SumAppend(live, Event(op.now, op.count));
        LengthWithinSum(live + [Event(op.now, op.count)]);
      }
    }
  }
}
