/**
 Which findings the wiring checker raises (wiring.py): for a wire, each of them, with its severity;
 for a plan, every warning and every note; and what verdict and counts make of them.
*/
module WiringFindings {
  import opened Wrappers
  import opened Sequences
  import opened Wiring
  import LineProtocol

  // ------------------------------------------------------------------ names

  predicate Answers(pin: Pin, name: string) {
    name == Upper(pin.name) || (pin.physical.Some? && name == "PIN" + LineProtocol.Decimal(pin.physical.value))
    || (pin.mcuPin.Some? && name == Upper(pin.mcuPin.value))
  }

  /** A wire names a pin, whatever the case, by the pin's own name, its place on the board or the chip's name
      for it; or it names a supply or the ground. Anything else is unknown. */
  lemma {:induction false} KnownNamesAre(profile: Profile, wire: Wire)
    ensures var name := Upper(wire.pin);
            PinOf(LookupOf(profile), wire).Some? <==>
              (exists p :: p in profile.pins && Answers(p, name)) || (exists s :: s in profile.power && name == Upper(s))
              || name == "GND" || name == "GROUND"
  {
    hide Names, SupplyNames, Answers, Upper;
    var name := Upper(wire.pin);
    var (pins, power) := (FlatMap(profile.pins, Names()), FlatMap(profile.power, SupplyNames()));
    KnownIfClaimed(Entries(profile), name);
    ClaimedEither(pins + power, [("GND", GROUND_PIN), ("GROUND", GROUND_PIN)], name);
    ClaimedEither(pins, power, name);
    ClaimedByPins(profile.pins, name);
    ClaimedBySupplies(profile.power, name);
    assert [("GND", GROUND_PIN), ("GROUND", GROUND_PIN)][0].0 == "GND" && [("GND", GROUND_PIN), ("GROUND", GROUND_PIN)][1].0 == "GROUND";
  }

  lemma {:induction false} KnownIfClaimed(entries: seq<Entry>, name: string)
    ensures name in Fold(map[], entries) <==> Claimed(entries, name)
  {
    if entries != [] {
      var n := |entries| - 1;
      KnownIfClaimed(entries[..n], name);
      ClaimedEither(entries[..n], [entries[n]], name);
      assert entries[..n] + [entries[n]] == entries && [entries[n]][0] == entries[n];
    }
  }

  lemma {:induction false} ClaimedEither(a: seq<Entry>, b: seq<Entry>, name: string)
    ensures Claimed(a + b, name) <==> Claimed(a, name) || Claimed(b, name)
  {
    if Claimed(a, name) {
      var i :| 0 <= i < |a| && a[i].0 == name;
      assert (a + b)[i].0 == name;
    }
    if Claimed(b, name) {
      var i :| 0 <= i < |b| && b[i].0 == name;
      assert (a + b)[|a| + i].0 == name;
    }
    if Claimed(a + b, name) {
      var i :| 0 <= i < |a + b| && (a + b)[i].0 == name;
      assert if i < |a| then a[i].0 == name else b[i - |a|].0 == name;
    }
  }

  lemma {:induction false} ClaimedByPins(pins: seq<Pin>, name: string)
    ensures Claimed(FlatMap(pins, Names()), name) <==> exists p :: p in pins && Answers(p, name)
  {
    if pins != [] {
      var n := |pins| - 1;
      ClaimedByPins(pins[..n], name);
      ClaimedEither(FlatMap(pins[..n], Names()), Names()(pins[n]), name);
      ClaimedByPin(pins[n], name);
      assert pins == pins[..n] + [pins[n]];
    }
  }

  lemma {:induction false} ClaimedByPin(pin: Pin, name: string)
    ensures Claimed(Names()(pin), name) <==> Answers(pin, name)
  {
    hide Upper;
    var own := [(Upper(pin.name), pin)];
    var place := if pin.physical.Some? then [("PIN" + LineProtocol.Decimal(pin.physical.value), pin)] else [];
    var chip := if pin.mcuPin.Some? then [(Upper(pin.mcuPin.value), pin)] else [];
    assert Names()(pin) == own + place + chip;
    ClaimedEither(own + place, chip, name);
    ClaimedEither(own, place, name);
    assert own[0].0 == Upper(pin.name);
  }

  lemma {:induction false} ClaimedBySupplies(power: seq<string>, name: string)
    ensures Claimed(FlatMap(power, SupplyNames()), name) <==> exists s :: s in power && name == Upper(s)
  {
    hide Upper;
    if power != [] {
      var n := |power| - 1;
      ClaimedBySupplies(power[..n], name);
      ClaimedEither(FlatMap(power[..n], SupplyNames()), SupplyNames()(power[n]), name);
      assert SupplyNames()(power[n])[0].0 == Upper(power[n]);
      assert power == power[..n] + [power[n]];
    }
  }

  // ------------------------------------------------------------------ one wire

  /** The board drives this pin, which can only be read. */
  predicate DrivesInput(pin: Pin, wire: Wire) { wire.role in BOARD_DRIVES && InputOnly in pin.caps }

  predicate Above(profile: Profile, volts: real) { volts > profile.plus(profile.logic, MARGIN) }

  predicate Below(profile: Profile, volts: real) {
    !Above(profile, volts) && volts < profile.plus(profile.logic, -MARGIN)
  }

  /** A finding about the pin and its supply. */
  predicate AboutPin(pin: Pin, wire: Wire, f: Finding) {
    match f.problem
    case Reserved(why) => f.severity == Error && pin.reserved == Some(why)
    case Caution(why) => f.severity == Warning && pin.reserved.None? && pin.caution == Some(why)
    case NotASupply(part) =>
      f.severity == Error && wire.role in {Power, Ground} && IsPower !in pin.caps && IsGround !in pin.caps && part == wire.part
    case SupplyPin(role, part) =>
      f.severity == Error && wire.role !in {Power, Ground} && (IsPower in pin.caps || IsGround in pin.caps)
      && role == wire.role && part == wire.part
    case _ => false
  }

  /** A finding about the signal: what the pin can do, and at which level. */
  predicate AboutSignal(profile: Profile, pin: Pin, wire: Wire, f: Finding) {
    match f.problem
    case CannotDrive(part) => f.severity == Error && DrivesInput(pin, wire) && part == wire.part
    case NotDefault(role) =>
      f.severity == Warning && !DrivesInput(pin, wire) && role == wire.role
      && Needs(role).Soft? && Needs(role).cap !in pin.caps
    case CannotDo(role) =>
      f.severity == Error && !DrivesInput(pin, wire) && role == wire.role
      && Needs(role).Hard? && Needs(role).cap !in pin.caps && !(Needs(role).cap == CanDigital && InputOnly in pin.caps)
    case SomeTolerant(part, volts) =>
      f.severity == Warning && part == wire.part && wire.volts == Some(volts) && Above(profile, volts) && profile.tolerant == SomePins
    case TooHigh(part, volts) =>
      f.severity == Error && part == wire.part && wire.volts == Some(volts) && Above(profile, volts) && profile.tolerant == No
    case OpenDrain(part, volts) =>
      f.severity == Warning && part == wire.part && wire.volts == Some(volts) && Below(profile, volts)
      && wire.role in {I2cSda, I2cScl}
    case DrivesTooHigh(part, volts) =>
      f.severity == Error && part == wire.part && wire.volts == Some(volts) && Below(profile, volts)
      && wire.role !in {I2cSda, I2cScl} && wire.role in BOARD_DRIVES
    case LowAnswer(part, volts) =>
      f.severity == Info && part == wire.part && wire.volts == Some(volts) && Below(profile, volts)
      && wire.role !in {I2cSda, I2cScl} && wire.role !in BOARD_DRIVES
    case _ => false
  }

  predicate Inductive(load: Load) { load in {Relay, Motor, Solenoid, OtherInductive} }

  /** A finding about the load and its current, unless a driver carries that. */
  predicate AboutLoad(profile: Profile, wire: Wire, f: Finding) {
    var limits := profile.limits;
    match f.problem
    case NeedsDriver(load) => f.severity == Error && load == wire.load && Inductive(load) && !wire.driver
    case NeedsFlyback(load) => f.severity == Info && load == wire.load && Inductive(load) && wire.driver
    case ServoSupply => f.severity == Info && wire.load == Servo
    case OverAbsolute(ma) =>
      f.severity == Error && wire.current == Some(ma) && !(wire.driver && Inductive(wire.load)) && ma > limits.absolute
    case OverRecommended(ma) =>
      f.severity == Warning && wire.current == Some(ma) && !(wire.driver && Inductive(wire.load))
      && limits.recommended < ma <= limits.absolute
    case _ => false
  }

  /** A wire to a pin of this board draws exactly this. */
  predicate Draws(profile: Profile, pin: Pin, wire: Wire, f: Finding) {
    f.pin == pin.name
    && (AboutPin(pin, wire, f)
        || (wire.role !in {Power, Ground} && IsPower !in pin.caps && IsGround !in pin.caps
            && (AboutSignal(profile, pin, wire, f) || AboutLoad(profile, wire, f))))
  }

  predicate DrawnBy(profile: Profile, wire: Wire, f: Finding) {
    match PinOf(LookupOf(profile), wire)
    case None => f == Finding(Error, wire.pin, UnknownPin)
    case Some(pin) => Draws(profile, pin, wire, f)
  }

  lemma {:induction false} SignalFindings(profile: Profile, pin: Pin, wire: Wire, f: Finding)
    ensures f in RoleFindings(pin, wire) + VoltFindings(profile, pin, wire) <==> f.pin == pin.name && AboutSignal(profile, pin, wire, f)
  {
    var (r, v) := (RoleFindings(pin, wire), VoltFindings(profile, pin, wire));
    assert f in r + v <==> f in r || f in v;
  }

  lemma {:induction false} LoadFindingsAre(profile: Profile, pin: Pin, wire: Wire, f: Finding)
    ensures f in LoadFindings(pin, wire) + CurrentFindings(profile, pin, wire) <==> f.pin == pin.name && AboutLoad(profile, wire, f)
  {
    var (l, c) := (LoadFindings(pin, wire), CurrentFindings(profile, pin, wire));
    assert f in l + c <==> f in l || f in c;
  }

  /** A wire draws exactly the findings that are its due. */
  lemma {:induction false} WireFindingsAre(profile: Profile, wire: Wire, f: Finding)
    ensures f in ByWire(profile)(wire) <==> DrawnBy(profile, wire, f)
  {
    hide LookupOf, RoleFindings, VoltFindings, LoadFindings, CurrentFindings, AboutSignal, AboutLoad;
    match PinOf(LookupOf(profile), wire)
    case None =>
    case Some(pin) =>
      SignalFindings(profile, pin, wire, f);
      LoadFindingsAre(profile, pin, wire, f);
      var (r, v) := (RoleFindings(pin, wire), VoltFindings(profile, pin, wire));
      var (l, c) := (LoadFindings(pin, wire), CurrentFindings(profile, pin, wire));
      assert r + v + l + c == (r + v) + (l + c);
      PinFindingsAre(profile, pin, wire, f);
  }

  lemma {:induction false} PinFindingsAre(profile: Profile, pin: Pin, wire: Wire, f: Finding)
    ensures var signals := RoleFindings(pin, wire) + VoltFindings(profile, pin, wire)
                           + (LoadFindings(pin, wire) + CurrentFindings(profile, pin, wire));
            f in KnownPin(profile, pin, wire) <==>
              (f.pin == pin.name && AboutPin(pin, wire, f))
              || (wire.role !in {Power, Ground} && !Supplies(pin) && f in signals)
  {
    hide RoleFindings, VoltFindings, LoadFindings, CurrentFindings;
    var (r, v) := (RoleFindings(pin, wire), VoltFindings(profile, pin, wire));
    var (l, c) := (LoadFindings(pin, wire), CurrentFindings(profile, pin, wire));
    assert r + v + l + c == r + v + (l + c);
  }

  // ------------------------------------------------------------------ a plan

  predicate OnI2c(wire: Wire) { wire.role in {I2cSda, I2cScl} }

  /** Nobody on the bus says that it has pull-ups. */
  predicate LacksPullUps(plan: seq<Wire>) {
    (exists w :: w in plan && OnI2c(w)) && forall w :: w in plan && OnI2c(w) ==> !w.pullUp
  }

  /** The warnings and notes a plan draws are those its wires draw, and one about pull-ups if the bus lacks them. */
  lemma {:induction false} WarningsAndNotesAre(profile: Profile, plan: seq<Wire>, f: Finding)
    requires f.severity != Error
    ensures f in ReportOf(profile, plan).findings <==>
              (exists w :: w in plan && DrawnBy(profile, w, f)) || (f == Finding(Warning, "*", NoPullUps) && LacksPullUps(plan))
  {
    hide ByWire, ByPin, OnTheBus, DrawnBy, LacksPullUps, LookupOf, BySeverity;
    var raised := Raised(profile, plan);
    SortIsStable(raised, Error);
    assert f in BySeverity(raised) <==> f in raised by {
      assert f in BySeverity(raised) <==> f in multiset(BySeverity(raised));
      assert f in raised <==> f in multiset(raised);
    }
    InFlatMap(plan, ByWire(profile), f);
    NoteFromWires(profile, plan, f);
    NotFromPins(profile, plan, Dedup(FlatMap(plan, Label(profile))), f);
    NoteFromBus(plan, f);
  }

  lemma {:induction false} NoteFromWires(profile: Profile, plan: seq<Wire>, f: Finding)
    ensures f in FlatMap(plan, ByWire(profile)) <==> exists w :: w in plan && DrawnBy(profile, w, f)
  {
    hide DrawnBy, ByWire;
    InFlatMap(plan, ByWire(profile), f);
    forall w ensures f in ByWire(profile)(w) <==> DrawnBy(profile, w, f) { WireFindingsAre(profile, w, f); }
  }

  lemma {:induction false} NotFromPins(profile: Profile, plan: seq<Wire>, names: seq<string>, f: Finding)
    requires f.severity != Error
    ensures f !in FlatMap(names, ByPin(profile, plan))
  {
    InFlatMap(names, ByPin(profile, plan), f);
  }

  lemma {:induction false} NotFromAddresses(bus: seq<Wire>, addresses: seq<string>, f: Finding)
    requires f.severity != Error
    ensures f !in FlatMap(addresses, ByAddress(bus))
  {
    InFlatMap(addresses, ByAddress(bus), f);
  }

  lemma {:induction false} BusNotes(bus: seq<Wire>, f: Finding)
    requires f.severity != Error
    ensures f in BusFindings(bus) <==> bus != [] && f == Finding(Warning, "*", NoPullUps) && !exists w :: w in bus && w.pullUp
  {
    hide Roles;
  }

  lemma {:induction false} BusWires(plan: seq<Wire>, w: Wire)
    ensures w in FlatMap(plan, OnBus()) <==> w in plan && OnI2c(w)
  {
    InFlatMap(plan, OnBus(), w);
  }

  lemma {:induction false} NoteFromBus(plan: seq<Wire>, f: Finding)
    requires f.severity != Error
    ensures f in OnTheBus(FlatMap(plan, OnBus())) <==> f == Finding(Warning, "*", NoPullUps) && LacksPullUps(plan)
  {
    hide BusFindings, ByAddress, Address, OnBus, OnI2c;
    var bus := FlatMap(plan, OnBus());
    NotFromAddresses(bus, Dedup(FlatMap(bus, Address())), f);
    BusNotes(bus, f);
    forall w ensures w in bus <==> w in plan && OnI2c(w) { BusWires(plan, w); }
    if bus != [] { assert bus[0] in bus; }
  }

  /** Where the findings of a severity stand. */
  function Places(findings: seq<Finding>, severity: Severity): set<nat> {
    set i: nat | i < |findings| && findings[i].severity == severity
  }

  lemma {:induction false} HavingIsCount(findings: seq<Finding>, severity: Severity)
    ensures |Having(findings, severity)| == |Places(findings, severity)|
  {
    if findings != [] {
      hide Having, Places;
      var n := |findings| - 1;
      HavingIsCount(findings[..n], severity);
      assert findings == findings[..n] + [findings[n]];
      HavingAppend(findings[..n], findings[n], severity);
      OneMorePlace(findings[..n], findings[n], severity);
    }
  }

  lemma {:induction false} OneMorePlace(findings: seq<Finding>, f: Finding, severity: Severity)
    ensures |Places(findings + [f], severity)| == |Places(findings, severity)| + if f.severity == severity then 1 else 0
  {
    var (before, after) := (Places(findings, severity), Places(findings + [f], severity));
    assert |findings| !in before && after == if f.severity == severity then before + {|findings|} else before;
  }

  /** The counts are the findings' own, and the verdict is `pass` exactly for a safe plan that draws no
      warning, `check` for a safe plan that does. */
  lemma {:induction false} VerdictAndCounts(profile: Profile, plan: seq<Wire>)
    ensures var r := ReportOf(profile, plan);
            && r.errors == |Places(r.findings, Error)| && r.warnings == |Places(r.findings, Warning)|
            && r.infos == |Places(r.findings, Info)|
            && (r.verdict == Fail <==> !Safe(profile, plan))
            && (r.verdict == Pass <==> Safe(profile, plan) && forall f :: f in r.findings ==> f.severity != Warning)
  {
    hide Raised, BySeverity, Safe, Having, Places;
    var r := ReportOf(profile, plan);
    VerdictIsExact(profile, plan);
    HavingIsCount(r.findings, Error);
    HavingIsCount(r.findings, Warning);
    HavingIsCount(r.findings, Info);
    HavingNone(r.findings, Warning);
  }
}
