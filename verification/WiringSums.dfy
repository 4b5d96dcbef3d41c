/**
 The total of a plan on a machine that rounds like IEEE 754 doubles (wiring.py): where whole numbers
 stand, and a plan whose verdict depends on the order of its connections.
*/
module WiringSums {
  import opened Doubles
  import opened Wrappers
  import opened Sequences
  import opened Wiring

  /** Whole sums up to 400000 need no rounding. */
  lemma {:induction false} DoublesAddWhole()
    ensures ExactOnWhole(PLUS, 400_000)
  {
    hide AddDoubles;
    forall a: nat, b: nat | a + b <= 400_000 ensures PLUS(Whole(a), Whole(b)) == Whole(a + b) {
      WholesAdd(a, b);
    }
  }

  // ------------------------------------------------------------------ a plan at the limit

  /** The doubles nearest to 1.2 and 11.9. */
  const SMALL: real := Units(5404319552844595)
  const LARGE: real := Units(53592835565708904)

  lemma {:induction false} AddUpAppend(plus: (real, real) -> real, s: seq<real>, x: real)
    ensures AddUp(plus, s + [x]) == plus(AddUp(plus, s), x)
  {
    assert (s + [x])[..|s|] == s;
  }

  const RISING: seq<real> := [SMALL, SMALL, LARGE, LARGE, LARGE, LARGE]
  const FALLING: seq<real> := [LARGE, LARGE, LARGE, LARGE, SMALL, SMALL]

  lemma {:induction false} RisingSum()
    ensures AddUp(PLUS, RISING) == 50.0
  {
    Halvings();
    Adds(0, 5404319552844595, 0, 1, 5404319552844595, 5404319552844595);
    Adds(5404319552844595, 5404319552844595, 1, 2, 5404319552844595, 10808639105689190);
    Adds(10808639105689190, 53592835565708904, 3, 8, 8050184333924762, 64401474671398096);
    Adds(64401474671398096, 53592835565708904, 4, 16, 7374644389819188, 117994310237107008);
    Adds(117994310237107008, 53592835565708904, 5, 32, 5362098306337997, 171587145802815904);
    Adds(171587145802815904, 53592835565708904, 5, 32, 7036874417766400, 225179981368524800);
    SixAdded(PLUS, RISING);
    assert Units(225179981368524800) == 50.0 && Units(0) == 0.0;
  }

  lemma {:induction false} FallingSum()
    ensures AddUp(PLUS, FALLING) == Units(225179981368524832) > 50.0
  {
    Halvings();
    Adds(0, 53592835565708904, 3, 8, 6699104445713613, 53592835565708904);
    Adds(53592835565708904, 53592835565708904, 4, 16, 6699104445713613, 107185671131417808);
    Adds(107185671131417808, 53592835565708904, 5, 32, 5024328334285210, 160778506697126720);
    Adds(160778506697126720, 53592835565708904, 5, 32, 6699104445713613, 214371342262835616);
    Adds(214371342262835616, 5404319552844595, 5, 32, 6867989431740007, 219775661815680224);
    Adds(219775661815680224, 5404319552844595, 5, 32, 7036874417766401, 225179981368524832);
    SixAdded(PLUS, FALLING);
    assert Units(0) == 0.0;
  }

  lemma {:induction false} SixAdded(plus: (real, real) -> real, s: seq<real>)
    requires |s| == 6
    ensures AddUp(plus, s) == plus(plus(plus(plus(plus(plus(0.0, s[0]), s[1]), s[2]), s[3]), s[4]), s[5])
  {
    assert s == [] + [s[0]] + [s[1]] + [s[2]] + [s[3]] + [s[4]] + [s[5]];
    AddUpAppend(plus, [], s[0]);
    AddUpAppend(plus, [] + [s[0]], s[1]);
    AddUpAppend(plus, [] + [s[0]] + [s[1]], s[2]);
    AddUpAppend(plus, [] + [s[0]] + [s[1]] + [s[2]], s[3]);
    AddUpAppend(plus, [] + [s[0]] + [s[1]] + [s[2]] + [s[3]], s[4]);
    AddUpAppend(plus, [] + [s[0]] + [s[1]] + [s[2]] + [s[3]] + [s[4]], s[5]);
  }

  // ------------------------------------------------------------------ its verdict

  function Gpio(name: string): Pin { Pin(name, {CanDigital}, None, None, None, None) }

  const NAMES: seq<string> := ["GP0", "GP1", "GP2", "GP3", "GP4", "GP5"]

  /** Six pins of a Raspberry Pi Pico, under its limits, on a machine with doubles. */
  const PICO: Profile :=
    Profile([Gpio("GP0"), Gpio("GP1"), Gpio("GP2"), Gpio("GP3"), Gpio("GP4"), Gpio("GP5")], [], 3.3, No,
            Limits(12.0, 4.0, Some(50.0)), PLUS)

  function LedOn(name: string, current: real): Wire {
    Wire(name, "led", DigitalOut, None, Led, Some(current), None, false, false)
  }

  const SMALL_FIRST: seq<Wire> :=
    [LedOn("GP0", SMALL), LedOn("GP1", SMALL), LedOn("GP2", LARGE), LedOn("GP3", LARGE), LedOn("GP4", LARGE), LedOn("GP5", LARGE)]

  const LARGE_FIRST: seq<Wire> :=
    [LedOn("GP2", LARGE), LedOn("GP3", LARGE), LedOn("GP4", LARGE), LedOn("GP5", LARGE), LedOn("GP0", SMALL), LedOn("GP1", SMALL)]

  lemma {:induction false} Singles<A, B>(s: seq<A>, f: A -> seq<B>, t: seq<B>)
    requires |s| == |t| && forall i :: 0 <= i < |s| ==> f(s[i]) == [t[i]]
    ensures FlatMap(s, f) == t
  {
    if s != [] {
      var n := |s| - 1;
      Singles(s[..n], f, t[..n]);
      assert t == t[..n] + [t[n]];
    }
  }

  lemma {:induction false} NamesAreUpper(i: nat)
    requires i < 6
    ensures Upper(NAMES[i]) == NAMES[i]
  {
    assert forall k :: 0 <= k < 3 ==> UpperChar(NAMES[i][k]) == NAMES[i][k];
  }

  lemma {:induction false} NamesDiffer(i: nat, j: nat)
    requires i < 6 && j < 6 && i != j
    ensures NAMES[i] != NAMES[j]
  {
    assert NAMES[i][2] != NAMES[j][2];
  }

  /** Each pin is found under its own name. */
  lemma {:induction false} PinIsFound(i: nat)
    requires i < 6
    ensures NAMES[i] in LookupOf(PICO) && LookupOf(PICO)[NAMES[i]] == Gpio(NAMES[i])
  {
    var named := seq(6, k requires 0 <= k < 6 => (NAMES[k], Gpio(NAMES[k])));
    forall k | 0 <= k < 6 ensures Names()(PICO.pins[k]) == [named[k]] {
      NamesAreUpper(k);
      assert PICO.pins[k] == Gpio(NAMES[k]);
    }
    Singles(PICO.pins, Names(), named);
    var entries := Entries(PICO);
    assert FlatMap(PICO.power, SupplyNames()) == [];
    assert entries[i] == named[i] && forall k :: 0 <= k < i ==> entries[..i][k] == named[k];
    FirstClaimWins(entries, i);
  }

  /** What the wires of both plans have in common. */
  predicate OnPico(wire: Wire, i: nat, current: real) {
    i < 6 && wire == LedOn(NAMES[i], current) && 0.0 <= current <= 12.0
  }

  lemma {:induction false} WireOnPico(wire: Wire, i: nat, current: real)
    requires OnPico(wire, i, current)
    ensures PinOf(LookupOf(PICO), wire) == Some(Gpio(NAMES[i]))
    ensures WireSafe(PICO, wire) && Currents(PICO)(wire) == [current]
  {
    hide LookupOf;
    NamesAreUpper(i);
    PinIsFound(i);
  }

  predicate AllOnPico(plan: seq<Wire>, pins: seq<nat>, currents: seq<real>) {
    |plan| == |pins| == |currents| && forall i :: 0 <= i < |plan| ==> OnPico(plan[i], pins[i], currents[i])
  }

  lemma {:induction false} NoPinIsShared(plan: seq<Wire>, pins: seq<nat>, currents: seq<real>)
    requires AllOnPico(plan, pins, currents) && forall i, j :: 0 <= i < j < |pins| ==> pins[i] != pins[j]
    ensures SharingSafe(PICO, plan)
  {
    hide LookupOf, WireSafe, Currents, PinOf;
    forall i, j | 0 <= i < j < |plan| ensures !OnOnePin(PICO, plan[i], plan[j]) {
      WireOnPico(plan[i], pins[i], currents[i]);
      WireOnPico(plan[j], pins[j], currents[j]);
      NamesDiffer(pins[i], pins[j]);
    }
  }

  /** Such a plan is safe unless its total is over the limit. */
  lemma {:induction false} SafeUnlessOver(plan: seq<Wire>, pins: seq<nat>, currents: seq<real>)
    requires AllOnPico(plan, pins, currents) && forall i, j :: 0 <= i < j < |pins| ==> pins[i] != pins[j]
    ensures Total(PICO, plan) == AddUp(PLUS, currents)
    ensures ReportOf(PICO, plan).verdict != Fail <==> AddUp(PLUS, currents) <= 50.0
  {
    hide LookupOf, ReportOf, WireSafe, AddUp, SharingSafe, PinOf;
    forall i | 0 <= i < |plan| ensures WireSafe(PICO, plan[i]) && Currents(PICO)(plan[i]) == [currents[i]] {
      WireOnPico(plan[i], pins[i], currents[i]);
    }
    Singles(plan, Currents(PICO), currents);
    NoPinIsShared(plan, pins, currents);
    VerdictIsExact(PICO, plan);
  }

  lemma {:induction false} SamePlan()
    ensures multiset(SMALL_FIRST) == multiset(LARGE_FIRST)
  {
    assert LARGE_FIRST == SMALL_FIRST[2..] + SMALL_FIRST[..2];
    assert SMALL_FIRST == SMALL_FIRST[..2] + SMALL_FIRST[2..];
  }

  lemma {:induction false} BothOnPico()
    ensures AllOnPico(SMALL_FIRST, [0, 1, 2, 3, 4, 5], RISING) && AllOnPico(LARGE_FIRST, [2, 3, 4, 5, 0, 1], FALLING)
  {
  }

  /** The same six connections pass in one order, adding up to exactly 50 mA, and fail in another,
      whose sum rounds to just above it. */
  lemma {:induction false} OrderCanDecideTheVerdict()
    ensures multiset(SMALL_FIRST) == multiset(LARGE_FIRST)
    ensures Total(PICO, SMALL_FIRST) == 50.0 < Total(PICO, LARGE_FIRST)
    ensures ReportOf(PICO, SMALL_FIRST).verdict != Fail && ReportOf(PICO, LARGE_FIRST).verdict == Fail
  {
    hide *;
    SamePlan();
    BothOnPico();
    SafeUnlessOver(SMALL_FIRST, [0, 1, 2, 3, 4, 5], RISING);
    SafeUnlessOver(LARGE_FIRST, [2, 3, 4, 5, 0, 1], FALLING);
    RisingSum();
    FallingSum();
  }
}
