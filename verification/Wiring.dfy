/**
 The wiring checker (wiring.py): rules applied wire by wire and pin by pin, against what a safe
 plan is, and against any reordering of the plan.
*/
module Wiring {
  import opened Wrappers
  import opened Sequences
  import LineProtocol

  datatype Role =
    | DigitalOut | DigitalIn | Pwm | AnalogIn | Dac | Interrupt | OneWire | I2cSda | I2cScl
    | SpiMosi | SpiMiso | SpiSck | SpiCs | UartTx | UartRx | Power | Ground

  /** What a profile says a pin can do; any other word it uses is `OtherCap`. */
  datatype Cap =
    | CanDigital | CanPwm | CanAnalogIn | CanDac | CanInterrupt | CanI2cSda | CanI2cScl | CanSpiMosi | CanSpiMiso
    | CanSpiSck | CanUartTx | CanUartRx | InputOnly | IsPower | IsGround | OtherCap(word: string)

  datatype Load = NoLoad | Led | Relay | Motor | Servo | Solenoid | Buzzer | OtherInductive

  /** The capability a role needs, and whether lacking it is only a warning. */
  datatype Need = Nothing | Hard(cap: Cap) | Soft(cap: Cap)

  function Needs(role: Role): Need {
    match role
    case DigitalOut => Hard(CanDigital)
    case Pwm => Hard(CanPwm)
    case AnalogIn => Hard(CanAnalogIn)
    case Dac => Hard(CanDac)
    case Interrupt => Hard(CanInterrupt)
    case OneWire => Hard(CanDigital)
    case I2cSda => Soft(CanI2cSda)
    case I2cScl => Soft(CanI2cScl)
    case SpiMosi => Soft(CanSpiMosi)
    case SpiMiso => Soft(CanSpiMiso)
    case SpiSck => Soft(CanSpiSck)
    case UartTx => Soft(CanUartTx)
    case UartRx => Soft(CanUartRx)
    case _ => Nothing
  }

  const BOARD_DRIVES: set<Role> := {DigitalOut, Pwm, Dac, SpiMosi, SpiSck, SpiCs, UartTx, OneWire}
  const I2C: set<Role> := {I2cSda, I2cScl}
  const SHARED: set<Role> := {I2cSda, I2cScl, SpiMosi, SpiMiso, SpiSck, Power, Ground, OneWire}
  const INDUCTIVE: set<Load> := {Relay, Motor, Solenoid, OtherInductive}
  const SUPPLY: set<Role> := {Power, Ground}
  const MAX_CONNECTIONS: nat := 80

  /** One parsed connection; an absent flag is false. */
  datatype Wire = Wire(pin: string, part: string, role: Role, volts: Option<real>, load: Load, current: Option<real>,
                       address: Option<string>, driver: bool, pullUp: bool)

  datatype Pin = Pin(name: string, caps: set<Cap>, reserved: Option<string>, caution: Option<string>,
                     physical: Option<nat>, mcuPin: Option<string>)

  datatype Tolerance = All | SomePins | No

  datatype Limits = Limits(absolute: real, recommended: real, total: Option<real>)

  /** A board, and the addition of the machine that checks it: sums of doubles are rounded. */
  datatype Profile = Profile(pins: seq<Pin>, power: seq<string>, logic: real, tolerant: Tolerance, limits: Limits,
                             plus: (real, real) -> real)
  {
    function Highest(): real { plus(logic, MARGIN) }
    function Lowest(): real { plus(logic, -MARGIN) }
  }

  /** The double nearest to 0.3 volts. */
  const MARGIN: real := 5404319552844595.0 / 18014398509481984.0

  datatype Severity = Error | Warning | Info

  /** What a finding's message is about. */
  datatype Problem =
    | UnknownPin | Reserved(why: string) | Caution(why: string) | NotASupply(part: string)
    | SupplyPin(role: Role, part: string) | CannotDrive(part: string) | NotDefault(role: Role) | CannotDo(role: Role)
    | SomeTolerant(part: string, volts: real) | TooHigh(part: string, volts: real) | OpenDrain(part: string, volts: real)
    | DrivesTooHigh(part: string, volts: real) | LowAnswer(part: string, volts: real) | NeedsDriver(load: Load)
    | NeedsFlyback(load: Load) | ServoSupply | OverAbsolute(ma: real) | OverRecommended(ma: real) | OverTotal(ma: real)
    | UsedFor(roles: set<Role>) | WiredAs(roles: set<Role>) | MissingLine(role: Role) | NoPullUps
    | AddressShared(parts: set<string>, address: string)

  datatype Finding = Finding(severity: Severity, pin: string, problem: Problem)

  // ------------------------------------------------------------------ pin names

  function UpperChar(c: char): char { if 'a' <= c <= 'z' then 'A' + (c - 'a') else c }

  function Upper(s: string): string { seq(|s|, i requires 0 <= i < |s| => UpperChar(s[i])) }

  type Entry = (string, Pin)

  function Names(): Pin -> seq<Entry> {
    (pin: Pin) => [(Upper(pin.name), pin)]
           + (if pin.physical.Some? then [("PIN" + LineProtocol.Decimal(pin.physical.value), pin)] else [])
           + (if pin.mcuPin.Some? then [(Upper(pin.mcuPin.value), pin)] else [])
  }

  function SupplyNames(): string -> seq<Entry> {
    (name: string) => [(Upper(name), Pin(name, {IsPower}, None, None, None, None))]
  }

  const GROUND_PIN: Pin := Pin("GND", {IsGround}, None, None, None, None)

  /** Every name a pin answers to, in the order they claim it. */
  function Entries(profile: Profile): seq<Entry> {
    FlatMap(profile.pins, Names()) + FlatMap(profile.power, SupplyNames()) + [("GND", GROUND_PIN), ("GROUND", GROUND_PIN)]
  }

  type Lookup = map<string, Pin>

  function SetDefault(lookup: Lookup, e: Entry): Lookup {
    if e.0 in lookup then lookup else lookup[e.0 := e.1]
  }

  function Fold(lookup: Lookup, entries: seq<Entry>): Lookup {
    if entries == [] then lookup else SetDefault(Fold(lookup, entries[..|entries| - 1]), entries[|entries| - 1])
  }

  function LookupOf(profile: Profile): Lookup { Fold(map[], Entries(profile)) }

  lemma {:induction false} FoldConcat(lookup: Lookup, a: seq<Entry>, b: seq<Entry>)
    ensures Fold(lookup, a + b) == Fold(Fold(lookup, a), b)
  {
    if b == [] {
      assert a + b == a;
    } else {
      var n := |b| - 1;
      FoldConcat(lookup, a, b[..n]);
      assert (a + b)[..|a| + n] == a + b[..n];
    }
  }

  method PinLookup(profile: Profile) returns (lookup: Lookup)
    ensures lookup == LookupOf(profile)
  {
    lookup := BoardPins(profile.pins);
    lookup := SupplyPins(lookup, profile.power);
    ghost var (pins, power) := (FlatMap(profile.pins, Names()), FlatMap(profile.power, SupplyNames()));
    FoldConcat(map[], pins, power);
    FoldTwo(map[], pins + power, ("GND", GROUND_PIN), ("GROUND", GROUND_PIN));
    lookup := SetDefault(SetDefault(lookup, ("GND", GROUND_PIN)), ("GROUND", GROUND_PIN));
  }

  method BoardPins(pins: seq<Pin>) returns (lookup: Lookup)
    ensures lookup == Fold(map[], FlatMap(pins, Names()))
  {
    lookup := map[];
    var i := 0;
    while i < |pins|
      invariant i <= |pins| && lookup == Fold(map[], FlatMap(pins[..i], Names()))
    {
      var pin := pins[i];
      assert pins[..i + 1][..i] == pins[..i];
      FoldConcat(map[], FlatMap(pins[..i], Names()), Names()(pin));
      FoldNames(lookup, pin);
      lookup := SetDefault(lookup, (Upper(pin.name), pin));
      if pin.physical.Some? {
        lookup := SetDefault(lookup, ("PIN" + LineProtocol.Decimal(pin.physical.value), pin));
      }
      if pin.mcuPin.Some? {
        lookup := SetDefault(lookup, (Upper(pin.mcuPin.value), pin));
      }
      i := i + 1;
    }
    assert pins[..i] == pins;
  }

  method SupplyPins(pins: Lookup, power: seq<string>) returns (lookup: Lookup)
    ensures lookup == Fold(pins, FlatMap(power, SupplyNames()))
  {
    hide SetDefault;
    lookup := pins;
    var i := 0;
    while i < |power|
      invariant i <= |power| && lookup == Fold(pins, FlatMap(power[..i], SupplyNames()))
    {
      var e := (Upper(power[i]), Pin(power[i], {IsPower}, None, None, None, None));
      SupplyStep(pins, power, i, e);
      lookup := SetDefault(lookup, e);
      i := i + 1;
    }
    assert power[..i] == power;
  }

  lemma {:induction false} SupplyStep(pins: Lookup, power: seq<string>, i: nat, e: Entry)
    requires i < |power| && SupplyNames()(power[i]) == [e]
    ensures Fold(pins, FlatMap(power[..i + 1], SupplyNames())) == SetDefault(Fold(pins, FlatMap(power[..i], SupplyNames())), e)
  {
    hide SetDefault;
    var before := FlatMap(power[..i], SupplyNames());
    FlatMapStep(power, i, SupplyNames());
    assert (before + [e])[..|before|] == before;
  }

  lemma {:induction false} FoldTwo(lookup: Lookup, s: seq<Entry>, a: Entry, b: Entry)
    ensures Fold(lookup, s + [a, b]) == SetDefault(SetDefault(Fold(lookup, s), a), b)
  {
    assert (s + [a, b])[..|s| + 1] == s + [a] && (s + [a])[..|s|] == s;
  }

  lemma {:induction false} FoldOne(lookup: Lookup, a: Entry)
    ensures Fold(lookup, [a]) == SetDefault(lookup, a)
  {
    assert [a][..0] == [];
  }

  lemma {:induction false} FoldNames(lookup: Lookup, pin: Pin)
    ensures var one := SetDefault(lookup, (Upper(pin.name), pin));
            var two := if pin.physical.Some? then SetDefault(one, ("PIN" + LineProtocol.Decimal(pin.physical.value), pin)) else one;
            Fold(lookup, Names()(pin)) == if pin.mcuPin.Some? then SetDefault(two, (Upper(pin.mcuPin.value), pin)) else two
  {
    var name := [(Upper(pin.name), pin)];
    var physical := if pin.physical.Some? then [("PIN" + LineProtocol.Decimal(pin.physical.value), pin)] else [];
    var mcu := if pin.mcuPin.Some? then [(Upper(pin.mcuPin.value), pin)] else [];
    FoldOne(lookup, name[0]);
    FoldConcat(lookup, name, physical);
    if physical != [] { FoldOne(Fold(lookup, name), physical[0]); }
    FoldConcat(lookup, name + physical, mcu);
    if mcu != [] { FoldOne(Fold(lookup, name + physical), mcu[0]); }
  }

  predicate Claimed(entries: seq<Entry>, name: string) { exists i :: 0 <= i < |entries| && entries[i].0 == name }

  /** A name means the first pin that claims it. */
  lemma {:induction false} FirstClaimWins(entries: seq<Entry>, i: nat)
    requires i < |entries| && !Claimed(entries[..i], entries[i].0)
    ensures entries[i].0 in Fold(map[], entries) && Fold(map[], entries)[entries[i].0] == entries[i].1
  {
    var n := |entries| - 1;
    if i < n {
      assert entries[..n][..i] == entries[..i];
      FirstClaimWins(entries[..n], i);
    } else {
      OnlyClaimed(entries[..n], entries[i].0);
    }
  }

  lemma {:induction false} OnlyClaimed(entries: seq<Entry>, name: string)
    ensures name in Fold(map[], entries) ==> Claimed(entries, name)
  {
    if entries != [] {
      var n := |entries| - 1;
      OnlyClaimed(entries[..n], name);
      if name in Fold(map[], entries[..n]) {
        var i :| 0 <= i < n && entries[..n][i].0 == name;
        assert entries[i].0 == name;
      } else if name == entries[n].0 {
        assert Claimed(entries, name);
      }
    }
  }

  // ------------------------------------------------------------------ findings about one wire

  function PinOf(lookup: Lookup, wire: Wire): Option<Pin> {
    var name := Upper(wire.pin);
    if name in lookup then Some(lookup[name]) else None
  }

  predicate Supplies(pin: Pin) { IsPower in pin.caps || IsGround in pin.caps }

  /** The wire carries a signal, on a signal pin. */
  predicate Signal(pin: Pin, wire: Wire) { wire.role !in SUPPLY && !Supplies(pin) }

  function WireFindings(profile: Profile, lookup: Lookup, wire: Wire): seq<Finding> {
    match PinOf(lookup, wire)
    case None => [Finding(Error, wire.pin, UnknownPin)]
    case Some(pin) => KnownPin(profile, pin, wire)
  }

  function KnownPin(profile: Profile, pin: Pin, wire: Wire): seq<Finding> {
    PinNotes(pin)
    + if wire.role in SUPPLY then
        if Supplies(pin) then [] else [Finding(Error, pin.name, NotASupply(wire.part))]
      else if Supplies(pin) then [Finding(Error, pin.name, SupplyPin(wire.role, wire.part))]
      else RoleFindings(pin, wire) + VoltFindings(profile, pin, wire) + LoadFindings(pin, wire) + CurrentFindings(profile, pin, wire)
  }

  function PinNotes(pin: Pin): seq<Finding> {
    if pin.reserved.Some? then [Finding(Error, pin.name, Reserved(pin.reserved.value))]
    else if pin.caution.Some? then [Finding(Warning, pin.name, Caution(pin.caution.value))]
    else []
  }

  function RoleFindings(pin: Pin, wire: Wire): seq<Finding> {
    if wire.role in BOARD_DRIVES && InputOnly in pin.caps then [Finding(Error, pin.name, CannotDrive(wire.part))]
    else
      match Needs(wire.role)
      case Nothing => []
      case Hard(cap) =>
        if cap in pin.caps || (cap == CanDigital && InputOnly in pin.caps) then []
        else [Finding(Error, pin.name, CannotDo(wire.role))]
      case Soft(cap) => if cap in pin.caps then [] else [Finding(Warning, pin.name, NotDefault(wire.role))]
  }

  function VoltFindings(profile: Profile, pin: Pin, wire: Wire): seq<Finding> {
    match wire.volts
    case None => []
    case Some(volts) =>
      if volts > profile.Highest() then
        match profile.tolerant
        case All => []
        case SomePins => [Finding(Warning, pin.name, SomeTolerant(wire.part, volts))]
        case No => [Finding(Error, pin.name, TooHigh(wire.part, volts))]
      else if volts >= profile.Lowest() then []
      else if wire.role in I2C then [Finding(Warning, pin.name, OpenDrain(wire.part, volts))]
      else if wire.role in BOARD_DRIVES then [Finding(Error, pin.name, DrivesTooHigh(wire.part, volts))]
      else [Finding(Info, pin.name, LowAnswer(wire.part, volts))]
  }

  function LoadFindings(pin: Pin, wire: Wire): seq<Finding> {
    if wire.load in INDUCTIVE then
      if wire.driver then [Finding(Info, pin.name, NeedsFlyback(wire.load))]
      else [Finding(Error, pin.name, NeedsDriver(wire.load))]
    else if wire.load == Servo then [Finding(Info, pin.name, ServoSupply)]
    else []
  }

  /** A current the pin itself would carry. */
  predicate Counted(wire: Wire) { wire.current.Some? && !(wire.driver && wire.load in INDUCTIVE) }

  function CurrentFindings(profile: Profile, pin: Pin, wire: Wire): seq<Finding> {
    if !Counted(wire) then []
    else if wire.current.value > profile.limits.absolute then [Finding(Error, pin.name, OverAbsolute(wire.current.value))]
    else if wire.current.value > profile.limits.recommended then [Finding(Warning, pin.name, OverRecommended(wire.current.value))]
    else []
  }

  function ByWire(profile: Profile): Wire -> seq<Finding> {
    wire => WireFindings(profile, LookupOf(profile), wire)
  }

  // ------------------------------------------------------------------ findings about the plan

  function Currents(profile: Profile): Wire -> seq<real> {
    wire =>
      var pin := PinOf(LookupOf(profile), wire);
      if pin.Some? && Signal(pin.value, wire) && Counted(wire) then [wire.current.value] else []
  }

  /** Added up from the left, rounding at each step. */
  function AddUp(plus: (real, real) -> real, currents: seq<real>): real {
    if currents == [] then 0.0 else plus(AddUp(plus, currents[..|currents| - 1]), currents[|currents| - 1])
  }

  function Total(profile: Profile, plan: seq<Wire>): real { AddUp(profile.plus, FlatMap(plan, Currents(profile))) }

  /** The total is over the board's limit, if it has one. */
  predicate Over(profile: Profile, plan: seq<Wire>) {
    profile.limits.total.Some? && Total(profile, plan) > profile.limits.total.value
  }

  function TotalFindings(profile: Profile, total: real): seq<Finding> {
    if profile.limits.total.Some? && total > profile.limits.total.value then [Finding(Error, "*", OverTotal(total))] else []
  }

  function Label(profile: Profile): Wire -> seq<string> {
    wire =>
      var pin := PinOf(LookupOf(profile), wire);
      if pin.Some? then [pin.value.name] else []
  }

  /** The wires on one pin, whichever of its names they use. */
  function Onto(profile: Profile, name: string): Wire -> seq<Wire> {
    wire =>
      var pin := PinOf(LookupOf(profile), wire);
      if pin.Some? && pin.value.name == name then [wire] else []
  }

  function Roles(wires: seq<Wire>): set<Role> { set wire | wire in wires :: wire.role }

  function PinFindings(name: string, wires: seq<Wire>): seq<Finding> {
    var roles := Roles(wires);
    if |wires| > 1 && !(roles <= SHARED) then [Finding(Error, name, UsedFor(roles))]
    else if |roles| > 1 then [Finding(Error, name, WiredAs(roles))]
    else []
  }

  function ByPin(profile: Profile, plan: seq<Wire>): string -> seq<Finding> {
    name => PinFindings(name, FlatMap(plan, Onto(profile, name)))
  }

  function OnBus(): Wire -> seq<Wire> { (wire: Wire) => if wire.role in I2C then [wire] else [] }

  function BusFindings(bus: seq<Wire>): seq<Finding> {
    if bus == [] then []
    else
      (if Roles(bus) == {I2cSda} then [Finding(Error, "*", MissingLine(I2cScl))]
       else if Roles(bus) == {I2cScl} then [Finding(Error, "*", MissingLine(I2cSda))] else [])
      + if exists wire :: wire in bus && wire.pullUp then [] else [Finding(Warning, "*", NoPullUps)]
  }

  function Address(): Wire -> seq<string> {
    (wire: Wire) => if wire.address.Some? && wire.address.value != "" then [wire.address.value] else []
  }

  predicate Addressed(wire: Wire, address: string) { address != "" && wire.address == Some(address) }

  function Owners(bus: seq<Wire>, address: string): set<string> {
    set wire | wire in bus && Addressed(wire, address) :: wire.part
  }

  function ByAddress(bus: seq<Wire>): string -> seq<Finding> {
    address => SharedBy(Owners(bus, address), address)
  }

  function SharedBy(owners: set<string>, address: string): seq<Finding> {
    if |owners| > 1 then [Finding(Error, "*", AddressShared(owners, address))] else []
  }

  function OnTheBus(bus: seq<Wire>): seq<Finding> {
    BusFindings(bus) + FlatMap(Dedup(FlatMap(bus, Address())), ByAddress(bus))
  }

  /** Everything `check` raises, in the order it does. */
  function Raised(profile: Profile, plan: seq<Wire>): seq<Finding> {
    FlatMap(plan, ByWire(profile))
    + TotalFindings(profile, Total(profile, plan))
    + FlatMap(Dedup(FlatMap(plan, Label(profile))), ByPin(profile, plan))
    + OnTheBus(FlatMap(plan, OnBus()))
  }

  // ------------------------------------------------------------------ what a safe plan is

  /** A board pin exists under this name, and taking this wire to it is safe. */
  predicate WireSafe(profile: Profile, wire: Wire) {
    var pin := PinOf(LookupOf(profile), wire);
    pin.Some? && pin.value.reserved.None?
    && (wire.role in SUPPLY <==> Supplies(pin.value))
    && (wire.role !in SUPPLY ==>
          Capable(pin.value, wire.role) && VoltageSafe(profile, wire) && LoadSafe(wire) && CurrentSafe(profile, wire))
  }

  predicate Capable(pin: Pin, role: Role) {
    (role in BOARD_DRIVES ==> InputOnly !in pin.caps)
    && (Needs(role).Hard? ==> Needs(role).cap in pin.caps || (Needs(role).cap == CanDigital && InputOnly in pin.caps))
  }

  /** The board tolerates the part's level, and the part the board's. */
  predicate VoltageSafe(profile: Profile, wire: Wire) {
    wire.volts.Some? ==>
      if wire.volts.value > profile.Highest() then profile.tolerant != No
      else wire.role in BOARD_DRIVES ==> wire.volts.value >= profile.Lowest()
  }

  predicate LoadSafe(wire: Wire) { wire.load in INDUCTIVE ==> wire.driver }

  predicate CurrentSafe(profile: Profile, wire: Wire) {
    Counted(wire) ==> wire.current.value <= profile.limits.absolute
  }

  predicate OnOnePin(profile: Profile, a: Wire, b: Wire) {
    var (p, q) := (PinOf(LookupOf(profile), a), PinOf(LookupOf(profile), b));
    p.Some? && q.Some? && p.value.name == q.value.name
  }

  predicate Compatible(a: Wire, b: Wire) { a.role == b.role && a.role in SHARED }

  /** Two wires share a pin only in one and the same shareable role. */
  predicate SharingSafe(profile: Profile, plan: seq<Wire>) {
    forall i, j :: 0 <= i < j < |plan| && OnOnePin(profile, plan[i], plan[j]) ==> Compatible(plan[i], plan[j])
  }

  predicate SameAddress(v: Wire, w: Wire) { v.address.Some? && v.address.value != "" && v.address == w.address }

  /** A bus with one I2C line has the other. */
  predicate LinesSafe(plan: seq<Wire>) {
    (exists w :: w in plan && w.role == I2cSda) <==> (exists w :: w in plan && w.role == I2cScl)
  }

  /** No two parts on the bus have one address. */
  predicate AddressesSafe(plan: seq<Wire>) {
    forall v, w :: v in plan && w in plan && v.role in I2C && w.role in I2C && SameAddress(v, w) ==> v.part == w.part
  }

  predicate Safe(profile: Profile, plan: seq<Wire>) {
    (forall i :: 0 <= i < |plan| ==> WireSafe(profile, plan[i]))
    && !Over(profile, plan)
    && SharingSafe(profile, plan)
    && LinesSafe(plan) && AddressesSafe(plan)
  }

  predicate HasError(findings: seq<Finding>) { exists i :: 0 <= i < |findings| && findings[i].severity == Error }

  lemma {:induction false} ErrorInConcat(a: seq<Finding>, b: seq<Finding>)
    ensures HasError(a + b) <==> HasError(a) || HasError(b)
  {
    if HasError(a) {
      var i :| 0 <= i < |a| && a[i].severity == Error;
      assert (a + b)[i].severity == Error;
    }
    if HasError(b) {
      var i :| 0 <= i < |b| && b[i].severity == Error;
      assert (a + b)[|a| + i].severity == Error;
    }
    if HasError(a + b) {
      var i :| 0 <= i < |a + b| && (a + b)[i].severity == Error;
      assert if i < |a| then a[i].severity == Error else b[i - |a|].severity == Error;
    }
  }

  lemma {:induction false} ErrorInFlatMap<A>(s: seq<A>, f: A -> seq<Finding>)
    ensures HasError(FlatMap(s, f)) <==> exists i :: 0 <= i < |s| && HasError(f(s[i]))
  {
    if s != [] {
      var n := |s| - 1;
      ErrorInFlatMap(s[..n], f);
      ErrorInConcat(FlatMap(s[..n], f), f(s[n]));
    }
  }

  /** A wire draws an error exactly when it is not safe. */
  lemma {:induction false} WireErrors(profile: Profile, wire: Wire)
    ensures HasError(ByWire(profile)(wire)) <==> !WireSafe(profile, wire)
  {
    var pin := PinOf(LookupOf(profile), wire);
    if pin.None? {
      assert ByWire(profile)(wire)[0].severity == Error;
    } else {
      KnownPinErrors(profile, pin.value, wire);
    }
  }

  lemma {:induction false} OneFinding(f: Finding)
    ensures HasError([f]) <==> f.severity == Error
    ensures !HasError([])
  {
    assert [f][0] == f;
  }

  lemma {:induction false} KnownPinErrors(profile: Profile, pin: Pin, wire: Wire)
    ensures HasError(KnownPin(profile, pin, wire))
            <==> !(pin.reserved.None? && (wire.role in SUPPLY <==> Supplies(pin))
                   && (wire.role !in SUPPLY ==>
                         Capable(pin, wire.role) && VoltageSafe(profile, wire) && LoadSafe(wire) && CurrentSafe(profile, wire)))
  {
    var rest := KnownPin(profile, pin, wire)[|PinNotes(pin)|..];
    assert KnownPin(profile, pin, wire) == PinNotes(pin) + rest;
    ErrorInConcat(PinNotes(pin), rest);
    PinNoteErrors(pin);
    if wire.role in SUPPLY || Supplies(pin) {
      if rest != [] { OneFinding(rest[0]); }
    } else {
      SignalErrors(profile, pin, wire);
    }
  }

  lemma {:induction false} PinNoteErrors(pin: Pin)
    ensures HasError(PinNotes(pin)) <==> pin.reserved.Some?
  {
    if PinNotes(pin) != [] { OneFinding(PinNotes(pin)[0]); }
  }

  lemma {:induction false} SignalErrors(profile: Profile, pin: Pin, wire: Wire)
    ensures HasError(RoleFindings(pin, wire) + VoltFindings(profile, pin, wire) + LoadFindings(pin, wire) + CurrentFindings(profile, pin, wire))
            <==> !(Capable(pin, wire.role) && VoltageSafe(profile, wire) && LoadSafe(wire) && CurrentSafe(profile, wire))
  {
    var (r, v, l, c) := (RoleFindings(pin, wire), VoltFindings(profile, pin, wire), LoadFindings(pin, wire), CurrentFindings(profile, pin, wire));
    ErrorInConcat(r, v);
    ErrorInConcat(r + v, l);
    ErrorInConcat(r + v + l, c);
    RoleErrors(pin, wire);
    VoltErrors(profile, pin, wire);
    if l != [] { OneFinding(l[0]); }
    if c != [] { OneFinding(c[0]); }
  }

  lemma {:induction false} RoleErrors(pin: Pin, wire: Wire)
    ensures HasError(RoleFindings(pin, wire)) <==> !Capable(pin, wire.role)
  {
    var r := RoleFindings(pin, wire);
    if r != [] { OneFinding(r[0]); }
  }

  lemma {:induction false} VoltErrors(profile: Profile, pin: Pin, wire: Wire)
    ensures HasError(VoltFindings(profile, pin, wire)) <==> !VoltageSafe(profile, wire)
  {
    var v := VoltFindings(profile, pin, wire);
    if v != [] { OneFinding(v[0]); }
  }

  // ------------------------------------------------------------------ sharing

  predicate AllCompatible(wires: seq<Wire>) {
    forall i, j :: 0 <= i < j < |wires| ==> Compatible(wires[i], wires[j])
  }

  lemma {:induction false} ManyRoles(wires: seq<Wire>)
    ensures |Roles(wires)| > 1 <==> exists i, j :: 0 <= i < j < |wires| && wires[i].role != wires[j].role
  {
    var roles := Roles(wires);
    if i, j :| 0 <= i < j < |wires| && wires[i].role != wires[j].role {
      assert wires[i] in wires && wires[j] in wires;
      assert {wires[i].role, wires[j].role} <= roles;
      TwoInSet(roles, wires[i].role, wires[j].role);
    }
    if |roles| > 1 {
      var a, b := TwoOfSet(roles);
      var i :| 0 <= i < |wires| && wires[i].role == a;
      var j :| 0 <= j < |wires| && wires[j].role == b;
      assert if i < j then wires[i].role != wires[j].role else wires[j].role != wires[i].role;
    }
  }

  lemma {:induction false} TwoInSet<A>(s: set<A>, a: A, b: A)
    requires a in s && b in s && a != b
    ensures |s| > 1
  {
    assert |s - {a}| == |s| - 1 && b in s - {a};
  }

  lemma {:induction false} TwoOfSet<A>(s: set<A>) returns (a: A, b: A)
    requires |s| > 1
    ensures a in s && b in s && a != b
  {
    a :| a in s;
    assert |s - {a}| > 0;
    b :| b in s - {a};
  }

  /** A pin draws an error exactly when two of its wires do not go together. */
  lemma {:induction false} PinErrors(name: string, wires: seq<Wire>)
    ensures HasError(PinFindings(name, wires)) <==> !AllCompatible(wires)
  {
    ManyRoles(wires);
    if PinFindings(name, wires) != [] { OneFinding(PinFindings(name, wires)[0]); }
    if |wires| > 1 && !(Roles(wires) <= SHARED) {
      var i :| 0 <= i < |wires| && wires[i].role !in SHARED;
      assert !Compatible(wires[0], wires[if i == 0 then 1 else i]);
    }
    if !AllCompatible(wires) {
      var i, j :| 0 <= i < j < |wires| && !Compatible(wires[i], wires[j]);
      assert wires[i] in wires;
      assert wires[i].role in Roles(wires);
    }
  }

  lemma {:induction false} KeptOnPin(profile: Profile, plan: seq<Wire>, name: string, wire: Wire)
    ensures wire in FlatMap(plan, Onto(profile, name))
            <==> wire in plan && PinOf(LookupOf(profile), wire).Some? && PinOf(LookupOf(profile), wire).value.name == name
  {
    InFlatMap(plan, Onto(profile, name), wire);
  }

  predicate On(profile: Profile, wire: Wire, name: string) {
    var pin := PinOf(LookupOf(profile), wire);
    pin.Some? && pin.value.name == name
  }

  predicate PinIsShareable(profile: Profile, plan: seq<Wire>, name: string) {
    forall i, j :: 0 <= i < j < |plan| && On(profile, plan[i], name) && On(profile, plan[j], name) ==>
      Compatible(plan[i], plan[j])
  }

  predicate AllWith(wires: seq<Wire>, x: Wire) { forall w :: w in wires ==> Compatible(w, x) }

  predicate AllOnWith(profile: Profile, wires: seq<Wire>, name: string, x: Wire) {
    forall w :: w in wires && On(profile, w, name) ==> Compatible(w, x)
  }

  lemma {:induction false} AllOnWithAre(profile: Profile, wires: seq<Wire>, name: string, x: Wire)
    ensures AllWith(FlatMap(wires, Onto(profile, name)), x) <==> AllOnWith(profile, wires, name, x)
  {
    forall w ensures w in FlatMap(wires, Onto(profile, name)) <==> w in wires && On(profile, w, name) {
      KeptOnPin(profile, wires, name, w);
    }
  }

  lemma {:induction false} CompatibleOnPin(profile: Profile, plan: seq<Wire>, name: string)
    ensures AllCompatible(FlatMap(plan, Onto(profile, name))) <==> PinIsShareable(profile, plan, name)
  {
    hide Compatible, On;
    if plan != [] {
      var (init, x) := (plan[..|plan| - 1], plan[|plan| - 1]);
      CompatibleOnPin(profile, init, name);
      assert plan == init + [x];
      CompatibleOnPinStep(profile, init, x, name);
    }
  }

  lemma {:induction false} CompatibleOnPinStep(profile: Profile, init: seq<Wire>, x: Wire, name: string)
    requires AllCompatible(FlatMap(init, Onto(profile, name))) <==> PinIsShareable(profile, init, name)
    ensures AllCompatible(FlatMap(init + [x], Onto(profile, name))) <==> PinIsShareable(profile, init + [x], name)
  {
    OntoAppend(profile, init, x, name);
    ShareableAppend(profile, init, x, name);
    CompatibleAppend(FlatMap(init, Onto(profile, name)), x);
    AllOnWithAre(profile, init, name, x);
  }

  lemma {:induction false} ShareableAppend(profile: Profile, init: seq<Wire>, x: Wire, name: string)
    ensures PinIsShareable(profile, init + [x], name)
            <==> PinIsShareable(profile, init, name)
                 && (On(profile, x, name) ==> AllOnWith(profile, init, name, x))
  {
    var all := init + [x];
    if PinIsShareable(profile, all, name) {
      forall i, j | 0 <= i < j < |init| && On(profile, init[i], name) && On(profile, init[j], name)
        ensures Compatible(init[i], init[j])
      {
        assert all[i] == init[i] && all[j] == init[j];
      }
      forall w | On(profile, x, name) && w in init && On(profile, w, name) ensures Compatible(w, x) {
        var i :| 0 <= i < |init| && init[i] == w;
        assert all[i] == w && all[|init|] == x;
      }
    }
  }

  lemma {:induction false} CompatibleAppend(wires: seq<Wire>, x: Wire)
    ensures AllCompatible(wires + [x]) <==> AllCompatible(wires) && AllWith(wires, x)
  {
    var all := wires + [x];
    if AllCompatible(all) {
      forall w | w in wires ensures Compatible(w, x) {
        var i :| 0 <= i < |wires| && wires[i] == w;
        assert Compatible(all[i], all[|wires|]);
      }
      forall i, j | 0 <= i < j < |wires| ensures Compatible(wires[i], wires[j]) {
        assert Compatible(all[i], all[j]);
      }
    }
  }

  predicate AllShareable(profile: Profile, plan: seq<Wire>, names: seq<string>) {
    forall k :: 0 <= k < |names| ==> PinIsShareable(profile, plan, names[k])
  }

  lemma {:induction false} ErrorsByPin(profile: Profile, plan: seq<Wire>, names: seq<string>)
    ensures HasError(FlatMap(names, ByPin(profile, plan))) <==> !AllShareable(profile, plan, names)
  {
    var f := ByPin(profile, plan);
    ErrorInFlatMap(names, f);
    forall i | 0 <= i < |names| ensures HasError(f(names[i])) <==> !PinIsShareable(profile, plan, names[i]) {
      PinErrors(names[i], FlatMap(plan, Onto(profile, names[i])));
      CompatibleOnPin(profile, plan, names[i]);
    }
  }

  lemma {:induction false} SharingIsByPin(profile: Profile, plan: seq<Wire>)
    ensures SharingSafe(profile, plan) <==> AllShareable(profile, plan, Dedup(FlatMap(plan, Label(profile))))
  {
    var names := Dedup(FlatMap(plan, Label(profile)));
    if AllShareable(profile, plan, names) {
      forall i, j | 0 <= i < j < |plan| && OnOnePin(profile, plan[i], plan[j]) ensures Compatible(plan[i], plan[j]) {
        var k := NameIsListed(profile, plan, i);
        assert PinIsShareable(profile, plan, names[k]);
        assert On(profile, plan[i], names[k]) && On(profile, plan[j], names[k]);
      }
    }
    if SharingSafe(profile, plan) {
      forall k | 0 <= k < |names| ensures PinIsShareable(profile, plan, names[k]) {
        forall i, j | 0 <= i < j < |plan| && On(profile, plan[i], names[k]) && On(profile, plan[j], names[k])
          ensures Compatible(plan[i], plan[j])
        {
          assert OnOnePin(profile, plan[i], plan[j]);
        }
      }
    }
  }

  /** The pins draw an error exactly when some two wires on one pin do not go together. */
  lemma {:induction false} SharingErrors(profile: Profile, plan: seq<Wire>)
    ensures HasError(FlatMap(Dedup(FlatMap(plan, Label(profile))), ByPin(profile, plan))) <==> !SharingSafe(profile, plan)
  {
    ErrorsByPin(profile, plan, Dedup(FlatMap(plan, Label(profile))));
    SharingIsByPin(profile, plan);
  }

  lemma {:induction false} NameIsListed(profile: Profile, plan: seq<Wire>, i: nat) returns (k: nat)
    requires i < |plan| && PinOf(LookupOf(profile), plan[i]).Some?
    ensures k < |Dedup(FlatMap(plan, Label(profile)))|
    ensures Dedup(FlatMap(plan, Label(profile)))[k] == PinOf(LookupOf(profile), plan[i]).value.name
  {
    var all := FlatMap(plan, Label(profile));
    var name := PinOf(LookupOf(profile), plan[i]).value.name;
    assert Label(profile)(plan[i])[0] == name;
    InFlatMap(plan, Label(profile), name);
    DedupHolds(all);
    assert name in Dedup(all);
    k :| 0 <= k < |Dedup(all)| && Dedup(all)[k] == name;
  }

  // ------------------------------------------------------------------ the bus

  lemma {:induction false} OnBusAre(plan: seq<Wire>, wire: Wire)
    ensures wire in FlatMap(plan, OnBus()) <==> wire in plan && wire.role in I2C
  {
    InFlatMap(plan, OnBus(), wire);
  }

  lemma {:induction false} LineErrors(plan: seq<Wire>)
    ensures HasError(BusFindings(FlatMap(plan, OnBus()))) <==> !LinesSafe(plan)
  {
    var bus := FlatMap(plan, OnBus());
    forall w ensures w in bus <==> w in plan && w.role in I2C { OnBusAre(plan, w); }
    BusHasLines(bus);
    assert (exists w :: w in plan && w.role == I2cSda) <==> exists w :: w in bus && w.role == I2cSda;
    assert (exists w :: w in plan && w.role == I2cScl) <==> exists w :: w in bus && w.role == I2cScl;
  }

  lemma {:induction false} BusHasLines(bus: seq<Wire>)
    requires forall w :: w in bus ==> w.role in I2C
    ensures HasError(BusFindings(bus)) <==> !((exists w :: w in bus && w.role == I2cSda) <==> (exists w :: w in bus && w.role == I2cScl))
  {
    if bus != [] {
      var line := if Roles(bus) == {I2cSda} then [Finding(Error, "*", MissingLine(I2cScl))]
                  else if Roles(bus) == {I2cScl} then [Finding(Error, "*", MissingLine(I2cSda))] else [];
      var pull := if exists wire :: wire in bus && wire.pullUp then [] else [Finding(Warning, "*", NoPullUps)];
      ErrorInConcat(line, pull);
      if line != [] { OneFinding(line[0]); }
      if pull != [] { OneFinding(pull[0]); }
      assert bus[0] in bus && bus[0].role in Roles(bus);
      assert (exists w :: w in bus && w.role == I2cSda) <==> I2cSda in Roles(bus);
      assert (exists w :: w in bus && w.role == I2cScl) <==> I2cScl in Roles(bus);
      assert Roles(bus) <= I2C;
      assert I2cSda in Roles(bus) && I2cScl !in Roles(bus) ==> Roles(bus) == {I2cSda};
      assert I2cScl in Roles(bus) && I2cSda !in Roles(bus) ==> Roles(bus) == {I2cScl};
    }
  }

  lemma {:induction false} AddressErrors(plan: seq<Wire>)
    ensures var bus := FlatMap(plan, OnBus());
            HasError(FlatMap(Dedup(FlatMap(bus, Address())), ByAddress(bus))) <==> !AddressesSafe(plan)
  {
    var bus := FlatMap(plan, OnBus());
    var addresses := Dedup(FlatMap(bus, Address()));
    ErrorInFlatMap(addresses, ByAddress(bus));
    if i :| 0 <= i < |addresses| && HasError(ByAddress(bus)(addresses[i])) {
      var v, w := TwoOwners(bus, addresses[i]);
      OnBusAre(plan, v);
      OnBusAre(plan, w);
      assert SameAddress(v, w) && v.part != w.part;
    }
    if !AddressesSafe(plan) {
      var v, w :| v in plan && w in plan && v.role in I2C && w.role in I2C && SameAddress(v, w) && v.part != w.part;
      OnBusAre(plan, v);
      OnBusAre(plan, w);
      var k := AddressIsListed(bus, v);
      SharedIsError(bus, v, w);
    }
  }

  lemma {:induction false} SharedIsError(bus: seq<Wire>, v: Wire, w: Wire)
    requires v in bus && w in bus && SameAddress(v, w) && v.part != w.part
    ensures HasError(ByAddress(bus)(v.address.value))
  {
    var owners := Owners(bus, v.address.value);
    assert Addressed(v, v.address.value) && Addressed(w, v.address.value);
    TwoInSet(owners, v.part, w.part);
    OneFinding(SharedBy(owners, v.address.value)[0]);
  }

  lemma {:induction false} TwoOwners(bus: seq<Wire>, address: string) returns (v: Wire, w: Wire)
    requires HasError(ByAddress(bus)(address))
    ensures v in bus && w in bus && Addressed(v, address) && Addressed(w, address) && v.part != w.part
  {
    var owners := Owners(bus, address);
    var a, b := TwoOfSet(owners);
    v :| v in bus && Addressed(v, address) && v.part == a;
    w :| w in bus && Addressed(w, address) && w.part == b;
  }

  lemma {:induction false} AddressIsListed(bus: seq<Wire>, wire: Wire) returns (k: nat)
    requires wire in bus && wire.address.Some? && wire.address.value != ""
    ensures k < |Dedup(FlatMap(bus, Address()))| && Dedup(FlatMap(bus, Address()))[k] == wire.address.value
  {
    var all := FlatMap(bus, Address());
    var i :| 0 <= i < |bus| && bus[i] == wire;
    assert Address()(bus[i])[0] == wire.address.value;
    InFlatMap(bus, Address(), wire.address.value);
    DedupHolds(all);
    assert wire.address.value in Dedup(all);
    k :| 0 <= k < |Dedup(all)| && Dedup(all)[k] == wire.address.value;
  }

  // ------------------------------------------------------------------ the verdict is exact

  /** An error is raised exactly when the plan is not safe. */
  lemma {:induction false} RaisedErrorIffUnsafe(profile: Profile, plan: seq<Wire>)
    ensures HasError(Raised(profile, plan)) <==> !Safe(profile, plan)
  {
    var bus := FlatMap(plan, OnBus());
    var wires := FlatMap(plan, ByWire(profile));
    var total := TotalFindings(profile, Total(profile, plan));
    var pins := FlatMap(Dedup(FlatMap(plan, Label(profile))), ByPin(profile, plan));
    var addresses := FlatMap(Dedup(FlatMap(bus, Address())), ByAddress(bus));
    ErrorInConcat(wires, total);
    ErrorInConcat(wires + total, pins);
    ErrorInConcat(wires + total + pins, BusFindings(bus) + addresses);
    ErrorInConcat(BusFindings(bus), addresses);
    AllWireErrors(profile, plan);
    if total != [] { OneFinding(total[0]); }
    SharingErrors(profile, plan);
    LineErrors(plan);
    AddressErrors(plan);
  }

  lemma {:induction false} AllWireErrors(profile: Profile, plan: seq<Wire>)
    ensures HasError(FlatMap(plan, ByWire(profile))) <==> exists i :: 0 <= i < |plan| && !WireSafe(profile, plan[i])
  {
    ErrorInFlatMap(plan, ByWire(profile));
    forall i | 0 <= i < |plan| ensures HasError(ByWire(profile)(plan[i])) <==> !WireSafe(profile, plan[i]) {
      WireErrors(profile, plan[i]);
    }
  }

  // ------------------------------------------------------------------ the order of the connections

  lemma {:induction false} SameRoles(a: seq<Wire>, b: seq<Wire>)
    requires multiset(a) == multiset(b)
    ensures Roles(a) == Roles(b) && |a| == |b|
  {
    SameMembers(a, b);
  }

  lemma {:induction false} SameOnPin(name: string, a: seq<Wire>, b: seq<Wire>)
    requires multiset(a) == multiset(b)
    ensures PinFindings(name, a) == PinFindings(name, b)
  {
    SameRoles(a, b);
  }

  lemma {:induction false} SameByPin(profile: Profile, p: seq<Wire>, q: seq<Wire>, name: string)
    requires multiset(p) == multiset(q)
    ensures ByPin(profile, p)(name) == ByPin(profile, q)(name)
  {
    FlatMapPermutes(p, q, Onto(profile, name));
    SameOnPin(name, FlatMap(p, Onto(profile, name)), FlatMap(q, Onto(profile, name)));
  }

  lemma {:induction false} SamePinFindings(profile: Profile, p: seq<Wire>, q: seq<Wire>)
    requires multiset(p) == multiset(q)
    ensures multiset(FlatMap(Dedup(FlatMap(p, Label(profile))), ByPin(profile, p)))
            == multiset(FlatMap(Dedup(FlatMap(q, Label(profile))), ByPin(profile, q)))
  {
    var (a, b) := (FlatMap(p, Label(profile)), FlatMap(q, Label(profile)));
    FlatMapPermutes(p, q, Label(profile));
    DedupPermutes(a, b);
    var (x, f, g) := (Dedup(a), ByPin(profile, p), ByPin(profile, q));
    forall i | 0 <= i < |x| ensures f(x[i]) == g(x[i]) { SameByPin(profile, p, q, x[i]); }
    FlatMapSame(x, Dedup(b), f, g);
  }

  lemma {:induction false} SameBusFindings(a: seq<Wire>, b: seq<Wire>)
    requires multiset(a) == multiset(b)
    ensures BusFindings(a) == BusFindings(b)
  {
    SameRoles(a, b);
    SamePullUps(a, b);
    assert a == [] <==> b == [];
  }

  lemma {:induction false} SamePullUps(a: seq<Wire>, b: seq<Wire>)
    requires multiset(a) == multiset(b)
    ensures (exists wire :: wire in a && wire.pullUp) <==> exists wire :: wire in b && wire.pullUp
  {
    SameMembers(a, b);
  }

  lemma {:induction false} SameOwners(a: seq<Wire>, b: seq<Wire>, address: string)
    requires multiset(a) == multiset(b)
    ensures ByAddress(a)(address) == ByAddress(b)(address)
  {
    SameMembers(a, b);
    assert Owners(a, address) == Owners(b, address);
  }

  lemma {:induction false} SameAddressFindings(a: seq<Wire>, b: seq<Wire>)
    requires multiset(a) == multiset(b)
    ensures multiset(FlatMap(Dedup(FlatMap(a, Address())), ByAddress(a))) == multiset(FlatMap(Dedup(FlatMap(b, Address())), ByAddress(b)))
  {
    var (x, y) := (FlatMap(a, Address()), FlatMap(b, Address()));
    FlatMapPermutes(a, b, Address());
    DedupPermutes(x, y);
    var (f, g, d) := (ByAddress(a), ByAddress(b), Dedup(x));
    forall i | 0 <= i < |d| ensures f(d[i]) == g(d[i]) { SameOwners(a, b, d[i]); }
    FlatMapSame(d, Dedup(y), f, g);
  }

  /** Everything raised but the finding about the total. */
  function Rest(profile: Profile, plan: seq<Wire>): seq<Finding> {
    FlatMap(plan, ByWire(profile))
    + FlatMap(Dedup(FlatMap(plan, Label(profile))), ByPin(profile, plan))
    + OnTheBus(FlatMap(plan, OnBus()))
  }

  lemma {:induction false} RaisedIsRestAndTotal(profile: Profile, plan: seq<Wire>)
    ensures multiset(Raised(profile, plan)) == multiset(Rest(profile, plan) + TotalFindings(profile, Total(profile, plan)))
  {
  }

  /** Reordering the connections changes no other finding. */
  lemma {:induction false} OrderKeepsRest(profile: Profile, p: seq<Wire>, q: seq<Wire>)
    requires multiset(p) == multiset(q)
    ensures multiset(Rest(profile, p)) == multiset(Rest(profile, q))
  {
    FlatMapPermutes(p, q, ByWire(profile));
    SamePinFindings(profile, p, q);
    FlatMapPermutes(p, q, OnBus());
    SameBusFindings(FlatMap(p, OnBus()), FlatMap(q, OnBus()));
    SameAddressFindings(FlatMap(p, OnBus()), FlatMap(q, OnBus()));
  }

  // ------------------------------------------------------------------ severities

  function Rank(s: Severity): nat { match s case Error => 0 case Warning => 1 case Info => 2 }

  /** One step of a stable sort by rank: behind everything that does not rank after it. */
  function Insert(sorted: seq<Finding>, f: Finding): seq<Finding> {
    if sorted == [] || Rank(sorted[|sorted| - 1].severity) <= Rank(f.severity) then sorted + [f]
    else Insert(sorted[..|sorted| - 1], f) + [sorted[|sorted| - 1]]
  }

  function BySeverity(findings: seq<Finding>): seq<Finding> {
    if findings == [] then [] else Insert(BySeverity(findings[..|findings| - 1]), findings[|findings| - 1])
  }

  function Having(findings: seq<Finding>, severity: Severity): seq<Finding> {
    if findings == [] then []
    else
      var (before, f) := (Having(findings[..|findings| - 1], severity), findings[|findings| - 1]);
      if f.severity == severity then before + [f] else before
  }

  predicate Ranked(findings: seq<Finding>) {
    forall i, j :: 0 <= i < j < |findings| ==> Rank(findings[i].severity) <= Rank(findings[j].severity)
  }

  lemma {:induction false} HavingAppend(s: seq<Finding>, f: Finding, severity: Severity)
    ensures Having(s + [f], severity) == if f.severity == severity then Having(s, severity) + [f] else Having(s, severity)
  {
    assert (s + [f])[..|s|] == s;
  }

  lemma {:induction false} InsertPermutes(sorted: seq<Finding>, f: Finding)
    ensures multiset(Insert(sorted, f)) == multiset(sorted) + multiset{f}
  {
    if sorted != [] && Rank(sorted[|sorted| - 1].severity) > Rank(f.severity) {
      var (init, last) := (sorted[..|sorted| - 1], sorted[|sorted| - 1]);
      assert sorted == init + [last];
      InsertPermutes(init, f);
    }
  }

  lemma {:induction false} InsertRanks(sorted: seq<Finding>, f: Finding, bound: nat)
    requires Ranked(sorted) && Rank(f.severity) <= bound
    requires forall i :: 0 <= i < |sorted| ==> Rank(sorted[i].severity) <= bound
    ensures Ranked(Insert(sorted, f))
    ensures forall i :: 0 <= i < |Insert(sorted, f)| ==> Rank(Insert(sorted, f)[i].severity) <= bound
  {
    if sorted != [] && Rank(sorted[|sorted| - 1].severity) > Rank(f.severity) {
      InsertRanks(sorted[..|sorted| - 1], f, Rank(sorted[|sorted| - 1].severity));
    }
  }

  lemma {:induction false} InsertIsStable(sorted: seq<Finding>, f: Finding, severity: Severity)
    ensures Having(Insert(sorted, f), severity) == if f.severity == severity then Having(sorted, severity) + [f] else Having(sorted, severity)
  {
    if sorted == [] || Rank(sorted[|sorted| - 1].severity) <= Rank(f.severity) {
      HavingAppend(sorted, f, severity);
    } else {
      var (init, last) := (sorted[..|sorted| - 1], sorted[|sorted| - 1]);
      assert sorted == init + [last];
      InsertIsStable(init, f, severity);
      HavingAppend(init, last, severity);
      HavingAppend(Insert(init, f), last, severity);
    }
  }

  /** The findings returned are those raised, most severe first, and otherwise in the order raised. */
  lemma {:induction false} SortIsStable(findings: seq<Finding>, severity: Severity)
    ensures Ranked(BySeverity(findings)) && multiset(BySeverity(findings)) == multiset(findings)
    ensures Having(BySeverity(findings), severity) == Having(findings, severity)
  {
    if findings != [] {
      var (init, last) := (findings[..|findings| - 1], findings[|findings| - 1]);
      assert findings == init + [last];
      SortIsStable(init, severity);
      InsertHolds(BySeverity(init), last, severity);
    }
  }

  lemma {:induction false} InsertHolds(sorted: seq<Finding>, f: Finding, severity: Severity)
    requires Ranked(sorted)
    ensures Ranked(Insert(sorted, f)) && multiset(Insert(sorted, f)) == multiset(sorted) + multiset{f}
    ensures Having(Insert(sorted, f), severity) == if f.severity == severity then Having(sorted, severity) + [f] else Having(sorted, severity)
  {
    InsertPermutes(sorted, f);
    InsertRanks(sorted, f, 2);
    InsertIsStable(sorted, f, severity);
  }

  // ------------------------------------------------------------------ the check

  datatype Verdict = Fail | LookAgain | Pass

  datatype Report = Report(verdict: Verdict, errors: nat, warnings: nat, infos: nat, findings: seq<Finding>)

  function ReportOf(profile: Profile, plan: seq<Wire>): Report { Summary(Raised(profile, plan)) }

  function Summary(raised: seq<Finding>): Report {
    var findings := BySeverity(raised);
    var (errors, warnings, infos) := (|Having(findings, Error)|, |Having(findings, Warning)|, |Having(findings, Info)|);
    Report(if errors > 0 then Fail else if warnings > 0 then LookAgain else Pass, errors, warnings, infos, findings)
  }

  lemma {:induction false} HavingNone(findings: seq<Finding>, severity: Severity)
    ensures Having(findings, severity) == [] <==> forall i :: 0 <= i < |findings| ==> findings[i].severity != severity
  {
    if findings != [] { HavingNone(findings[..|findings| - 1], severity); }
  }

  lemma {:induction false} HavingCounts(a: seq<Finding>, severity: Severity)
    ensures |Having(a, severity)| == |FlatMap(a, OfSeverity(severity))|
  {
    if a != [] { HavingCounts(a[..|a| - 1], severity); }
  }

  function OfSeverity(severity: Severity): Finding -> seq<Finding> {
    (f: Finding) => if f.severity == severity then [f] else []
  }

  lemma {:induction false} SameCount(a: seq<Finding>, b: seq<Finding>, severity: Severity)
    requires multiset(a) == multiset(b)
    ensures |Having(a, severity)| == |Having(b, severity)|
  {
    HavingCounts(a, severity);
    HavingCounts(b, severity);
    FlatMapPermutes(a, b, OfSeverity(severity));
    SameMembers(FlatMap(a, OfSeverity(severity)), FlatMap(b, OfSeverity(severity)));
  }

  /** The verdict is not `fail` exactly when the plan is safe. */
  lemma {:induction false} VerdictIsExact(profile: Profile, plan: seq<Wire>)
    ensures ReportOf(profile, plan).verdict != Fail <==> Safe(profile, plan)
  {
    var raised := Raised(profile, plan);
    RaisedErrorIffUnsafe(profile, plan);
    SortIsStable(raised, Error);
    HavingNone(raised, Error);
  }

  lemma {:induction false} HavingConcat(a: seq<Finding>, b: seq<Finding>, severity: Severity)
    ensures Having(a + b, severity) == Having(a, severity) + Having(b, severity)
  {
    if b == [] {
      assert a + b == a;
    } else {
      var n := |b| - 1;
      assert a + b == (a + b[..n]) + [b[n]];
      HavingConcat(a, b[..n], severity);
      HavingAppend(a + b[..n], b[n], severity);
    }
  }

  /** How many findings of a severity a plan draws, the one about the total apart. */
  lemma {:induction false} CountsAre(profile: Profile, plan: seq<Wire>, severity: Severity)
    ensures |Having(BySeverity(Raised(profile, plan)), severity)|
            == |Having(Rest(profile, plan), severity)| + if severity == Error && Over(profile, plan) then 1 else 0
    ensures multiset(BySeverity(Raised(profile, plan)))
            == multiset(Rest(profile, plan)) + multiset(TotalFindings(profile, Total(profile, plan)))
  {
    hide Raised, Rest, BySeverity, Having, Total, Ranked;
    var (raised, rest, total) := (Raised(profile, plan), Rest(profile, plan), TotalFindings(profile, Total(profile, plan)));
    SortIsStable(raised, severity);
    RaisedIsRestAndTotal(profile, plan);
    SameCount(raised, rest + total, severity);
    HavingConcat(rest, total, severity);
    if total == [] { HavingNothing(severity); } else { HavingOne(total[0], severity); }
  }

  lemma {:induction false} HavingNothing(severity: Severity)
    ensures Having([], severity) == []
  {
  }

  lemma {:induction false} HavingOne(f: Finding, severity: Severity)
    ensures |Having([f], severity)| == if f.severity == severity then 1 else 0
  {
    assert [f] == [] + [f];
    HavingAppend([], f, severity);
  }

  predicate SameSummary(a: Report, b: Report) {
    a.verdict == b.verdict && a.errors == b.errors && a.warnings == b.warnings && a.infos == b.infos
  }

  /** Reordering the connections keeps verdict and counts exactly when both totals, added up in their
      own orders, are on the same side of the limit; and it keeps the findings exactly when, besides,
      two totals over the limit are equal. */
  lemma {:induction false} ReportKeepsOrderIff(profile: Profile, p: seq<Wire>, q: seq<Wire>)
    requires multiset(p) == multiset(q)
    ensures var (a, b) := (ReportOf(profile, p), ReportOf(profile, q));
            (SameSummary(a, b) <==> (Over(profile, p) <==> Over(profile, q)))
            && (multiset(a.findings) == multiset(b.findings)
                <==> (Over(profile, p) <==> Over(profile, q)) && (Over(profile, p) ==> Total(profile, p) == Total(profile, q)))
  {
    OrderKeepsRest(profile, p, q);
    RestCounts(profile, p, q, Error);
    RestCounts(profile, p, q, Warning);
    RestCounts(profile, p, q, Info);
    var (t, u) := (TotalFindings(profile, Total(profile, p)), TotalFindings(profile, Total(profile, q)));
    SameAfterRest(multiset(Rest(profile, p)), t, u);
  }

  lemma {:induction false} RestCounts(profile: Profile, p: seq<Wire>, q: seq<Wire>, severity: Severity)
    requires multiset(Rest(profile, p)) == multiset(Rest(profile, q))
    ensures |Having(BySeverity(Raised(profile, p)), severity)| + (if severity == Error && Over(profile, q) then 1 else 0)
            == |Having(BySeverity(Raised(profile, q)), severity)| + (if severity == Error && Over(profile, p) then 1 else 0)
    ensures multiset(BySeverity(Raised(profile, p)))
            == multiset(Rest(profile, p)) + multiset(TotalFindings(profile, Total(profile, p)))
    ensures multiset(BySeverity(Raised(profile, q)))
            == multiset(Rest(profile, p)) + multiset(TotalFindings(profile, Total(profile, q)))
  {
    CountsAre(profile, p, severity);
    CountsAre(profile, q, severity);
    SameCount(Rest(profile, p), Rest(profile, q), severity);
  }

  lemma {:induction false} SameAfterRest(rest: multiset<Finding>, t: seq<Finding>, u: seq<Finding>)
    requires |t| <= 1 && |u| <= 1
    ensures rest + multiset(t) == rest + multiset(u) <==> t == u
  {
    if rest + multiset(t) == rest + multiset(u) {
      assert multiset(t) == (rest + multiset(t)) - rest && multiset(u) == (rest + multiset(u)) - rest;
      SameMembers(t, u);
      if t != [] { assert t[0] in t && t[0] in u; }
    }
  }

  // ------------------------------------------------------------------ sums without rounding

  function Whole(n: int): real { n as real }

  predicate IsWhole(x: real, most: nat) { x == Whole(x.Floor) && 0 <= x.Floor <= most }

  predicate AllWhole(currents: seq<real>, most: nat) { forall i :: 0 <= i < |currents| ==> IsWhole(currents[i], most) }

  /** Whole numbers up to the bound are added without rounding, as doubles are up to 2^53. */
  ghost predicate ExactOnWhole(plus: (real, real) -> real, bound: nat) {
    forall a: nat, b: nat :: a + b <= bound ==> plus(Whole(a), Whole(b)) == Whole(a + b)
  }

  lemma {:induction false} WholeSumsAreExact(plus: (real, real) -> real, currents: seq<real>, most: nat, bound: nat) returns (n: nat)
    requires ExactOnWhole(plus, bound) && AllWhole(currents, most) && |currents| * most <= bound
    ensures AddUp(plus, currents) == Sum(currents) == Whole(n) && n <= |currents| * most
  {
    n := 0;
    if currents != [] {
      var k := |currents| - 1;
      assert |currents| * most == k * most + most;
      var m := WholeSumsAreExact(plus, currents[..k], most, bound);
      n := m + currents[k].Floor;
      assert IsWhole(currents[k], most);
      assert plus(Whole(m), Whole(currents[k].Floor)) == Whole(n);
    }
  }

  lemma {:induction false} AllWholePermutes(c: seq<real>, d: seq<real>, most: nat)
    requires multiset(c) == multiset(d) && AllWhole(c, most)
    ensures AllWhole(d, most) && |c| == |d|
  {
    SameMembers(c, d);
    forall i | 0 <= i < |d| ensures IsWhole(d[i], most) { assert d[i] in c; }
  }

  /** A caller that keeps to whole milliamperes, within the 80 connections of up to 5000 mA that are
      accepted, gets one report whatever the order. */
  lemma {:induction false} WholeCurrentsIgnoreOrder(profile: Profile, p: seq<Wire>, q: seq<Wire>)
    requires multiset(p) == multiset(q) && ExactOnWhole(profile.plus, 400_000)
    requires |p| <= MAX_CONNECTIONS && AllWhole(FlatMap(p, Currents(profile)), 5000)
    ensures var (a, b) := (ReportOf(profile, p), ReportOf(profile, q));
            SameSummary(a, b) && multiset(a.findings) == multiset(b.findings)
  {
    hide ReportOf, Currents;
    var (c, d) := (FlatMap(p, Currents(profile)), FlatMap(q, Currents(profile)));
    FlatMapPermutes(p, q, Currents(profile));
    AllWholePermutes(c, d, 5000);
    OneCurrentEach(profile, p);
    var m := WholeSumsAreExact(profile.plus, c, 5000, 400_000);
    var n := WholeSumsAreExact(profile.plus, d, 5000, 400_000);
    SumPermutes(c, d);
    ReportKeepsOrderIff(profile, p, q);
  }

  lemma {:induction false} OneCurrentEach(profile: Profile, plan: seq<Wire>)
    ensures |FlatMap(plan, Currents(profile))| <= |plan|
  {
    if plan != [] { OneCurrentEach(profile, plan[..|plan| - 1]); }
  }

  method Check(profile: Profile, plan: seq<Wire>) returns (r: Report)
    ensures r == ReportOf(profile, plan)
  {
    var lookup := PinLookup(profile);
    var findings, total, order, byPin := CheckWires(profile, lookup, plan);
    findings := findings + TotalFindings(profile, total);
    var pins := CheckPins(order, byPin);
    PinsAre(profile, plan, order, byPin);
    findings := findings + pins;
    var bus := CheckBus(plan);
    RaisedIs(profile, plan, findings, bus);
    r := Summary(findings + bus);
  }

  lemma {:induction false} RaisedIs(profile: Profile, plan: seq<Wire>, findings: seq<Finding>, bus: seq<Finding>)
    requires findings == FlatMap(plan, ByWire(profile)) + TotalFindings(profile, Total(profile, plan))
                         + FlatMap(Dedup(FlatMap(plan, Label(profile))), ByPin(profile, plan))
    requires bus == OnTheBus(FlatMap(plan, OnBus()))
    ensures findings + bus == Raised(profile, plan)
  {
  }

  /** The dict `by_pin`: its keys in order, and what it holds. */
  ghost predicate Grouped(profile: Profile, plan: seq<Wire>, order: seq<string>, byPin: map<string, seq<Wire>>) {
    order == Dedup(FlatMap(plan, Label(profile)))
    && (forall name :: name in byPin <==> name in order)
    && forall name :: Holds(profile, plan, byPin, name)
  }

  predicate Holds(profile: Profile, plan: seq<Wire>, byPin: map<string, seq<Wire>>, name: string) {
    FlatMap(plan, Onto(profile, name)) == if name in byPin then byPin[name] else []
  }

  lemma {:induction false} OntoAppend(profile: Profile, plan: seq<Wire>, wire: Wire, name: string)
    ensures var (before, after) := (FlatMap(plan, Onto(profile, name)), FlatMap(plan + [wire], Onto(profile, name)));
            after == if On(profile, wire, name) then before + [wire] else before
  {
    FlatMapAppend(plan, wire, Onto(profile, name));
  }

  lemma {:induction false} LabelAppend(profile: Profile, plan: seq<Wire>, wire: Wire)
    ensures var (before, after, pin) := (FlatMap(plan, Label(profile)), FlatMap(plan + [wire], Label(profile)), PinOf(LookupOf(profile), wire));
            Dedup(after) == PutName(pin, Dedup(before))
  {
    FlatMapAppend(plan, wire, Label(profile));
    var pin := PinOf(LookupOf(profile), wire);
    if pin.Some? {
      DedupAppend(FlatMap(plan, Label(profile)), pin.value.name);
    } else {
      assert FlatMap(plan, Label(profile)) + [] == FlatMap(plan, Label(profile));
    }
  }

  lemma {:induction false} GroupedStep(profile: Profile, plan: seq<Wire>, order: seq<string>, byPin: map<string, seq<Wire>>, wire: Wire)
    requires Grouped(profile, plan, order, byPin)
    ensures var pin := PinOf(LookupOf(profile), wire);
            Grouped(profile, plan + [wire], PutName(pin, order), PutWire(pin, byPin, wire))
  {
    LabelAppend(profile, plan, wire);
    var grown := PutWire(PinOf(LookupOf(profile), wire), byPin, wire);
    forall name ensures Holds(profile, plan + [wire], grown, name) {
      OntoAppend(profile, plan, wire, name);
      assert Holds(profile, plan, byPin, name);
    }
  }

  lemma {:induction false} NothingYet(profile: Profile)
    ensures FlatMap([], ByWire(profile)) == [] && Total(profile, []) == 0.0 && Grouped(profile, [], [], map[])
  {
  }

  method CheckWires(profile: Profile, lookup: Lookup, plan: seq<Wire>)
    returns (findings: seq<Finding>, total: real, order: seq<string>, byPin: map<string, seq<Wire>>)
    requires lookup == LookupOf(profile)
    ensures findings == FlatMap(plan, ByWire(profile)) && total == Total(profile, plan) && Grouped(profile, plan, order, byPin)
  {
    hide WireFindings, Added, PutName, PutWire, Total, Grouped, FlatMap;
    findings, total, order, byPin := [], 0.0, [], map[];
    NothingYet(profile);
    var i := 0;
    assert plan[..0] == [];
    while i < |plan|
      invariant i <= |plan| && findings == FlatMap(plan[..i], ByWire(profile)) && total == Total(profile, plan[..i])
      invariant Grouped(profile, plan[..i], order, byPin)
    {
      var wire := plan[i];
      assert plan[..i + 1] == plan[..i] + [wire];
      WireStep(profile, plan[..i], wire);
      GroupedStep(profile, plan[..i], order, byPin, wire);
      findings := findings + WireFindings(profile, lookup, wire);
      total := Added(profile, lookup, wire, total);
      order, byPin := PutName(PinOf(lookup, wire), order), PutWire(PinOf(lookup, wire), byPin, wire);
      i := i + 1;
    }
    assert plan[..i] == plan;
  }

  function PutName(pin: Option<Pin>, order: seq<string>): seq<string> {
    if pin.Some? && pin.value.name !in order then order + [pin.value.name] else order
  }

  /** `by_pin.setdefault(name, []).append(wire)`. */
  function PutWire(pin: Option<Pin>, byPin: map<string, seq<Wire>>, wire: Wire): map<string, seq<Wire>> {
    if pin.None? then byPin
    else byPin[pin.value.name := (if pin.value.name in byPin then byPin[pin.value.name] else []) + [wire]]
  }

  /** `total_ma` after one more wire. */
  function Added(profile: Profile, lookup: Lookup, wire: Wire, total: real): real {
    var pin := PinOf(lookup, wire);
    if pin.Some? && Signal(pin.value, wire) && Counted(wire) then profile.plus(total, wire.current.value) else total
  }

  lemma {:induction false} WireStep(profile: Profile, plan: seq<Wire>, wire: Wire)
    ensures FlatMap(plan + [wire], ByWire(profile)) == FlatMap(plan, ByWire(profile)) + WireFindings(profile, LookupOf(profile), wire)
    ensures Total(profile, plan + [wire]) == Added(profile, LookupOf(profile), wire, Total(profile, plan))
  {
    FlatMapAppend(plan, wire, ByWire(profile));
    TotalStep(profile, plan, wire);
  }

  lemma {:induction false} TotalStep(profile: Profile, plan: seq<Wire>, wire: Wire)
    ensures Total(profile, plan + [wire]) == Added(profile, LookupOf(profile), wire, Total(profile, plan))
  {
    var before := FlatMap(plan, Currents(profile));
    FlatMapAppend(plan, wire, Currents(profile));
    if Currents(profile)(wire) == [] {
      assert before + [] == before;
    } else {
      assert (before + [wire.current.value])[..|before|] == before;
    }
  }

  function FromPins(byPin: map<string, seq<Wire>>): string -> seq<Finding> {
    name => PinFindings(name, if name in byPin then byPin[name] else [])
  }

  method CheckPins(order: seq<string>, byPin: map<string, seq<Wire>>) returns (findings: seq<Finding>)
    requires forall name :: name in order ==> name in byPin
    ensures findings == FlatMap(order, FromPins(byPin))
  {
    findings := [];
    var i := 0;
    while i < |order|
      invariant i <= |order| && findings == FlatMap(order[..i], FromPins(byPin))
    {
      FlatMapStep(order, i, FromPins(byPin));
      findings := findings + PinFindings(order[i], byPin[order[i]]);
      i := i + 1;
    }
    assert order[..i] == order;
  }

  lemma {:induction false} PinsAre(profile: Profile, plan: seq<Wire>, order: seq<string>, byPin: map<string, seq<Wire>>)
    requires Grouped(profile, plan, order, byPin)
    ensures FlatMap(order, FromPins(byPin)) == FlatMap(order, ByPin(profile, plan))
  {
    forall i | 0 <= i < |order| ensures FromPins(byPin)(order[i]) == ByPin(profile, plan)(order[i]) {
      assert Holds(profile, plan, byPin, order[i]);
    }
    FlatMapAgrees(order, FromPins(byPin), ByPin(profile, plan));
  }

  /** The dict `owners`. */
  ghost predicate Owned(bus: seq<Wire>, order: seq<string>, owners: map<string, set<string>>) {
    order == Dedup(FlatMap(bus, Address()))
    && (forall address :: address in owners <==> address in order)
    && forall address :: OwnedBy(bus, owners, address)
  }

  predicate OwnedBy(bus: seq<Wire>, owners: map<string, set<string>>, address: string) {
    Owners(bus, address) == if address in owners then owners[address] else {}
  }

  method CheckBus(plan: seq<Wire>) returns (findings: seq<Finding>)
    ensures findings == OnTheBus(FlatMap(plan, OnBus()))
  {
    var bus := FlatMap(plan, OnBus());
    var order, owners := GatherOwners(bus);
    var shared := CheckAddresses(order, owners);
    OwnersAre(bus, order, owners);
    return BusFindings(bus) + shared;
  }

  method CheckAddresses(order: seq<string>, owners: map<string, set<string>>) returns (findings: seq<Finding>)
    requires forall address :: address in order ==> address in owners
    ensures findings == FlatMap(order, FromOwners(owners))
  {
    findings := [];
    var i := 0;
    while i < |order|
      invariant i <= |order| && findings == FlatMap(order[..i], FromOwners(owners))
    {
      FlatMapStep(order, i, FromOwners(owners));
      findings := findings + SharedBy(owners[order[i]], order[i]);
      i := i + 1;
    }
    assert order[..i] == order;
  }

  function FromOwners(owners: map<string, set<string>>): string -> seq<Finding> {
    address => SharedBy(if address in owners then owners[address] else {}, address)
  }

  lemma {:induction false} OwnersAre(bus: seq<Wire>, order: seq<string>, owners: map<string, set<string>>)
    requires Owned(bus, order, owners)
    ensures FlatMap(order, FromOwners(owners)) == FlatMap(order, ByAddress(bus))
  {
    forall i | 0 <= i < |order| ensures FromOwners(owners)(order[i]) == ByAddress(bus)(order[i]) {
      assert OwnedBy(bus, owners, order[i]);
    }
    FlatMapAgrees(order, FromOwners(owners), ByAddress(bus));
  }

  method GatherOwners(bus: seq<Wire>) returns (order: seq<string>, owners: map<string, set<string>>)
    ensures Owned(bus, order, owners)
  {
    order, owners := [], map[];
    var i := 0;
    while i < |bus|
      invariant i <= |bus| && Owned(bus[..i], order, owners)
    {
      var wire := bus[i];
      assert bus[..i + 1] == bus[..i] + [wire];
      if wire.address.Some? && wire.address.value != "" {
        var address := wire.address.value;
        OwnedStep(bus[..i], order, owners, wire, address);
        order := if address in order then order else order + [address];
        owners := PutOwner(owners, address, wire.part);
      } else {
        OwnedSame(bus[..i], order, owners, wire);
      }
      i := i + 1;
    }
    assert bus[..i] == bus;
  }

  lemma {:induction false} OwnersAppend(bus: seq<Wire>, wire: Wire, address: string)
    ensures Owners(bus + [wire], address) == Owners(bus, address) + if Addressed(wire, address) then {wire.part} else {}
  {
  }

  /** `owners.setdefault(address, set()).add(part)`. */
  function PutOwner(owners: map<string, set<string>>, address: string, part: string): map<string, set<string>> {
    owners[address := (if address in owners then owners[address] else {}) + {part}]
  }

  lemma {:induction false} OwnedByStep(bus: seq<Wire>, owners: map<string, set<string>>, wire: Wire, address: string, other: string)
    requires OwnedBy(bus, owners, other) && Addressed(wire, address)
    ensures OwnedBy(bus + [wire], PutOwner(owners, address, wire.part), other)
  {
    OwnersAppend(bus, wire, other);
  }

  lemma {:induction false} OwnedStep(bus: seq<Wire>, order: seq<string>, owners: map<string, set<string>>, wire: Wire, address: string)
    requires Owned(bus, order, owners) && Addressed(wire, address)
    ensures Owned(bus + [wire], if address in order then order else order + [address], PutOwner(owners, address, wire.part))
  {
    FlatMapAppend(bus, wire, Address());
    DedupAppend(FlatMap(bus, Address()), address);
    forall a ensures OwnedBy(bus + [wire], PutOwner(owners, address, wire.part), a) {
      OwnedByStep(bus, owners, wire, address, a);
    }
  }

  lemma {:induction false} OwnedSame(bus: seq<Wire>, order: seq<string>, owners: map<string, set<string>>, wire: Wire)
    requires Owned(bus, order, owners) && Address()(wire) == []
    ensures Owned(bus + [wire], order, owners)
  {
    FlatMapAppend(bus, wire, Address());
    assert FlatMap(bus, Address()) + [] == FlatMap(bus, Address());
    forall a ensures OwnedBy(bus + [wire], owners, a) {
      OwnersAppend(bus, wire, a);
      assert OwnedBy(bus, owners, a);
    }
  }
}
