/**
 SessionManager (serial_session.py): at most one registered session per port, opened
 and closed by any number of threads whose lock-protected regions interleave freely.
*/
module SessionRegistry {
  import opened Wrappers

  type Port = string
  type Sid = nat
  type Tid = nat

  /** What a session object is to the registry. `open` is `status()["open"]`, which never
      turns true again. `returned` and `targeted` are history: some `open` call handed it
      out; some close, close_port or stale cleanup picked it to be closed. */
  datatype Handle = Handle(port: Port, baud: nat, open: bool, returned: bool, targeted: bool)

  datatype Pc =
    | Idle
    | Opening(port: Port, baud: nat, stale: Option<Sid>, staleClosed: bool)
    | Installing(stale: Option<Sid>, made: Sid)
    | Closing(sid: Sid)
    | Unregistering(sid: Sid)
    | ClosingPort(sid: Sid)

  datatype State = State(handles: seq<Handle>, sessions: map<Port, Sid>, pcs: map<Tid, Pc>)
  {
    function Pc(t: Tid): Pc { if t in pcs then pcs[t] else Idle }
    function At(t: Tid, pc: Pc): State { this.(pcs := pcs[t := pc]) }
    predicate Open(i: Sid) { i < |handles| && handles[i].open }
    function Set(i: Sid, h: Handle): State
      requires i < |handles|
    {
      this.(handles := handles[i := h])
    }
    function Returned(i: Sid): State
      requires i < |handles|
    {
      Set(i, handles[i].(returned := true))
    }
    function Targeted(i: Sid): State
      requires i < |handles|
    {
      Set(i, handles[i].(targeted := true))
    }
    function Closed(i: Sid): State
      requires i < |handles|
    {
      Set(i, handles[i].(open := false))
    }
  }

  const START := State([], map[], map[])

  datatype Step =
    | OpenLooksUp(tid: Tid, port: Port, baud: nat)
    | OpenClosesStale(tid: Tid)
    | OpenConstructs(tid: Tid)
    | OpenFails(tid: Tid)
    | OpenInstalls(tid: Tid)
    | CloseFinds(tid: Tid, sid: Sid)
    | CloseCloses(tid: Tid)
    | CloseUnregisters(tid: Tid)
    | ClosePortPops(tid: Tid, port: Port)
    | ClosePortCloses(tid: Tid)
    | SessionFails(sid: Sid)

  predicate Enabled(s: State, step: Step) {
    match step
    case OpenLooksUp(t, _, _) => s.Pc(t) == Idle
    case OpenClosesStale(t) => var pc := s.Pc(t); pc.Opening? && pc.stale.Some? && !pc.staleClosed && pc.stale.value < |s.handles|
    case OpenConstructs(t) => var pc := s.Pc(t); pc.Opening? && (pc.stale.Some? ==> pc.staleClosed)
    case OpenFails(t) => var pc := s.Pc(t); pc.Opening? && (pc.stale.Some? ==> pc.staleClosed)
    case OpenInstalls(t) => s.Pc(t).Installing? && s.Pc(t).made < |s.handles|
    case CloseFinds(t, sid) => s.Pc(t) == Idle && sid < |s.handles| && sid in s.sessions.Values
    case CloseCloses(t) => s.Pc(t).Closing? && s.Pc(t).sid < |s.handles|
    case CloseUnregisters(t) => s.Pc(t).Unregistering? && s.Pc(t).sid < |s.handles|
    case ClosePortPops(t, port) => s.Pc(t) == Idle && (port in s.sessions ==> s.sessions[port] < |s.handles|)
    case ClosePortCloses(t) => s.Pc(t).ClosingPort? && s.Pc(t).sid < |s.handles|
    case SessionFails(sid) => sid < |s.handles|
  }

  /** The first locked region of `open`: reuse an open session, refuse another baud, or go on
      with what was found (if anything) as stale. */
  function LookUp(s: State, t: Tid, port: Port, baud: nat): State {
    var existing := if port in s.sessions then Some(s.sessions[port]) else None;
    if existing.Some? && s.Open(existing.value) then
      if s.handles[existing.value].baud != baud then s else s.Returned(existing.value)
    else
      s.At(t, Opening(port, baud, existing, false))
  }

  /** A session other than the stale one holds the port, and is open. */
  predicate Taken(sessions: map<Port, Sid>, port: Port, stale: Option<Sid>, isOpen: Sid -> bool) {
    port in sessions && Some(sessions[port]) != stale && isOpen(sessions[port])
  }

  /** The registry after a session has been constructed. */
  function Entered(sessions: map<Port, Sid>, port: Port, stale: Option<Sid>, made: Sid, isOpen: Sid -> bool): map<Port, Sid> {
    if Taken(sessions, port, stale, isOpen) then sessions else sessions[port := made]
  }

  /** The second locked region of `open`: lose to a newer open session, or take the port. */
  function Install(s: State, t: Tid, stale: Option<Sid>, made: Sid): State
    requires made < |s.handles|
  {
    var port := s.handles[made].port;
    if Taken(s.sessions, port, stale, (i: Sid) => s.Open(i)) then
      s.Targeted(made).Closed(made).Returned(s.sessions[port]).At(t, Idle)
    else
      s.Returned(made).(sessions := Entered(s.sessions, port, stale, made, (i: Sid) => s.Open(i))).At(t, Idle)
  }

  /** The last locked region of `close`: drop the port only if it still holds this session. */
  function Unregister(sessions: map<Port, Sid>, port: Port, sid: Sid): map<Port, Sid> {
    if port in sessions && sessions[port] == sid then Popped(sessions, port) else sessions
  }

  function Popped(sessions: map<Port, Sid>, port: Port): map<Port, Sid> { sessions - {port} }

  function Do(s: State, step: Step): State
    requires Enabled(s, step)
  {
    match step
    case OpenLooksUp(t, port, baud) => LookUp(s, t, port, baud)
    case OpenClosesStale(t) =>
      var pc := s.Pc(t);
      s.Targeted(pc.stale.value).Closed(pc.stale.value).At(t, pc.(staleClosed := true))
    case OpenConstructs(t) =>
      var pc := s.Pc(t);
      s.(handles := s.handles + [Handle(pc.port, pc.baud, true, false, false)])
       .At(t, Installing(pc.stale, |s.handles|))
    case OpenFails(t) => s.At(t, Idle)
    case OpenInstalls(t) => Install(s, t, s.Pc(t).stale, s.Pc(t).made)
    case CloseFinds(t, sid) => s.Targeted(sid).At(t, Closing(sid))
    case CloseCloses(t) => s.Closed(s.Pc(t).sid).At(t, Unregistering(s.Pc(t).sid))
    case CloseUnregisters(t) =>
      var sid := s.Pc(t).sid;
      s.(sessions := Unregister(s.sessions, s.handles[sid].port, sid)).At(t, Idle)
    case ClosePortPops(t, port) =>
      if port !in s.sessions then s
      else
        var sid := s.sessions[port];
        s.Targeted(sid).(sessions := Popped(s.sessions, port)).At(t, ClosingPort(sid))
    case ClosePortCloses(t) => s.Closed(s.Pc(t).sid).At(t, Idle)
    case SessionFails(sid) => s.Closed(sid)
  }

  ghost predicate CanRun(s: State, run: seq<Step>)
    decreases |run|
  {
    run == [] || (Enabled(s, run[0]) && CanRun(Do(s, run[0]), run[1..]))
  }

  ghost function After(s: State, run: seq<Step>): State
    requires CanRun(s, run)
    decreases |run|
  {
    if run == [] then s else After(Do(s, run[0]), run[1..])
  }

  /** A session someone was handed, still open, and never picked for closing. */
  ghost predicate Live(s: State, i: Sid) {
    i < |s.handles| && s.handles[i].open && s.handles[i].returned && !s.handles[i].targeted
  }

  ghost predicate Registered(s: State, i: Sid)
    requires i < |s.handles|
  {
    var port := s.handles[i].port;
    port in s.sessions && s.sessions[port] == i
  }

  ghost predicate PcInv(s: State, pc: Pc) {
    match pc
    case Idle => true
    case Opening(port, _, stale, closed) =>
      stale.Some? ==> stale.value < |s.handles| && s.handles[stale.value].port == port && !s.handles[stale.value].open
                      && (closed ==> s.handles[stale.value].targeted)
    case Installing(stale, made) =>
      made < |s.handles|
      && (stale.Some? ==> stale.value < |s.handles| && !s.handles[stale.value].open)
    case Closing(i) => i < |s.handles| && s.handles[i].targeted
    case Unregistering(i) => i < |s.handles| && s.handles[i].targeted && !s.handles[i].open
    case ClosingPort(i) => i < |s.handles| && s.handles[i].targeted
  }

  ghost predicate RegistryInv(s: State) {
    && (forall p :: p in s.sessions ==> s.sessions[p] < |s.handles| && s.handles[s.sessions[p]].port == p)
    && (forall i: Sid :: Live(s, i) ==> Registered(s, i))
  }

  /** A session under construction belongs to one thread, and nobody else has seen it. */
  ghost predicate PrivateInv(s: State) {
    && (forall t: Tid :: s.Pc(t).Installing? ==> s.Pc(t).made < |s.handles| && !s.handles[s.Pc(t).made].returned)
    && (forall t: Tid, u: Tid :: t != u && s.Pc(t).Installing? && s.Pc(u).Installing? ==> s.Pc(t).made != s.Pc(u).made)
    && (forall t: Tid, p: Port :: s.Pc(t).Installing? && p in s.sessions ==> s.sessions[p] != s.Pc(t).made)
  }

  ghost predicate Inv(s: State) {
    RegistryInv(s) && PrivateInv(s) && (forall t: Tid :: PcInv(s, s.Pc(t)))
  }

  function Mover(step: Step): Option<Tid> {
    if step.SessionFails? then None else Some(step.tid)
  }

  /** Sessions are never forgotten, moved to another port or rate, reopened or un-targeted. */
  predicate Older(h: Handle, h': Handle) {
    h'.port == h.port && h'.baud == h.baud && (h'.open ==> h.open) && (h.targeted ==> h'.targeted)
  }

  ghost predicate Grows(s: State, s': State) {
    |s.handles| <= |s'.handles| && forall i: Sid :: i < |s.handles| ==> Older(s.handles[i], s'.handles[i])
  }

  lemma {:induction false} GrowsTwice(s: State, s': State, s'': State)
    requires Grows(s, s') && Grows(s', s'')
    ensures Grows(s, s'')
  {
    forall i: Sid | i < |s.handles| ensures Older(s.handles[i], s''.handles[i]) {
      assert Older(s.handles[i], s'.handles[i]) && Older(s'.handles[i], s''.handles[i]);
    }
  }

  lemma {:induction false} InstallGrows(s: State, t: Tid, stale: Option<Sid>, made: Sid)
    requires RegistryInv(s) && made < |s.handles|
    ensures Grows(s, Install(s, t, stale, made))
  {
    var port := s.handles[made].port;
    if port in s.sessions {
      var lost := s.Targeted(made).Closed(made);
      GrowsTwice(s, s.Targeted(made), lost);
      GrowsTwice(s, lost, lost.Returned(s.sessions[port]));
    }
  }

  lemma {:induction false} StepGrows(s: State, step: Step)
    requires Inv(s) && Enabled(s, step)
    ensures Grows(s, Do(s, step))
  {
    match step
    case OpenInstalls(t) => InstallGrows(s, t, s.Pc(t).stale, s.Pc(t).made);
    case OpenClosesStale(t) =>
      var i := s.Pc(t).stale.value;
      GrowsTwice(s, s.Targeted(i), s.Targeted(i).Closed(i));
    case _ =>
  }

  lemma {:induction false} StepFrame(s: State, step: Step)
    requires Inv(s) && Enabled(s, step)
    ensures Grows(s, Do(s, step))
    ensures forall t: Tid :: Some(t) != Mover(step) ==> Do(s, step).Pc(t) == s.Pc(t)
  {
    StepGrows(s, step);
  }

  lemma {:induction false} PcFramed(s: State, s': State, pc: Pc)
    requires PcInv(s, pc) && Grows(s, s')
    ensures PcInv(s', pc)
  {
  }

  lemma {:induction false} PcStep(s: State, step: Step)
    requires Inv(s) && Enabled(s, step)
    ensures forall t: Tid :: PcInv(Do(s, step), Do(s, step).Pc(t))
  {
    StepFrame(s, step);
    var s' := Do(s, step);
    forall t: Tid ensures PcInv(s', s'.Pc(t)) {
      assert PcInv(s, s.Pc(t));
      if Some(t) != Mover(step) { PcFramed(s, s', s.Pc(t)); }
    }
  }

  /** Steps that hand nothing out: sessions may close, be targeted, or leave the registry
      once targeted. */
  ghost predicate Quiet(s: State, s': State) {
    && Grows(s, s') && |s'.handles| == |s.handles|
    && (forall i: Sid :: i < |s.handles| ==> s'.handles[i].returned == s.handles[i].returned)
    && (forall p :: p in s'.sessions ==> p in s.sessions && s'.sessions[p] == s.sessions[p])
    && (forall p :: p in s.sessions && p !in s'.sessions ==>
          s.sessions[p] < |s'.handles| && s'.handles[s.sessions[p]].targeted)
    && (forall t: Tid :: s'.Pc(t).Installing? ==> s'.Pc(t) == s.Pc(t))
  }

  lemma {:induction false} QuietKeeps(s: State, s': State)
    requires RegistryInv(s) && PrivateInv(s) && Quiet(s, s')
    ensures RegistryInv(s') && PrivateInv(s')
  {
    forall i: Sid | Live(s', i) ensures Registered(s', i) {
      assert Live(s, i) && Registered(s, i);
    }
  }

  lemma {:induction false} StepIsQuiet(s: State, step: Step)
    requires Inv(s) && Enabled(s, step) && !step.OpenLooksUp? && !step.OpenConstructs? && !step.OpenInstalls?
    ensures Quiet(s, Do(s, step))
  {
    if step.CloseUnregisters? || step.ClosePortPops? { LeavingIsQuiet(s, step); } else { ClosingIsQuiet(s, step); }
  }

  lemma {:induction false} LeavingIsQuiet(s: State, step: Step)
    requires Inv(s) && Enabled(s, step) && (step.CloseUnregisters? || step.ClosePortPops?)
    ensures Quiet(s, Do(s, step))
  {
    StepFrame(s, step);
    assert PcInv(s, s.Pc(step.tid));
  }

  lemma {:induction false} ClosingIsQuiet(s: State, step: Step)
    requires Inv(s) && Enabled(s, step)
    requires step.OpenClosesStale? || step.OpenFails? || step.CloseFinds? || step.CloseCloses? || step.ClosePortCloses? || step.SessionFails?
    ensures Quiet(s, Do(s, step))
  {
    hide RegistryInv, PrivateInv, Grows, LookUp, Install;
    StepFrame(s, step);
  }

  /** Only thread t moved, at most to a session it just made; what it handed out or registered
      was registered already or its own. */
  lemma {:induction false} PrivateKept(s: State, s': State, t: Tid)
    requires PrivateInv(s) && Grows(s, s')
    requires forall u: Tid :: u != t ==> s'.Pc(u) == s.Pc(u)
    requires s'.Pc(t).Installing? ==>
               !s.Pc(t).Installing? && s'.Pc(t).made == |s.handles| < |s'.handles|
               && !s'.handles[|s.handles|].returned && s'.sessions == s.sessions
    requires forall p :: p in s.sessions ==> s.sessions[p] < |s.handles|
    requires forall i: Sid :: i < |s.handles| && s'.handles[i].returned && !s.handles[i].returned ==>
               i in s.sessions.Values || (s.Pc(t).Installing? && s.Pc(t).made == i)
    requires forall p :: p in s'.sessions ==>
               (p in s.sessions && s'.sessions[p] == s.sessions[p])
               || (s.Pc(t).Installing? && s'.sessions[p] == s.Pc(t).made && !s'.Pc(t).Installing?)
    ensures PrivateInv(s')
  {
    forall u: Tid | s'.Pc(u).Installing?
      ensures s'.Pc(u).made < |s'.handles| && !s'.handles[s'.Pc(u).made].returned {
      if u != t { assert s.Pc(u).Installing? && !s.handles[s.Pc(u).made].returned; }
    }
    forall u: Tid, v: Tid | u != v && s'.Pc(u).Installing? && s'.Pc(v).Installing?
      ensures s'.Pc(u).made != s'.Pc(v).made {
      if u != t { assert s.Pc(u).made < |s.handles|; }
      if v != t { assert s.Pc(v).made < |s.handles|; }
    }
    forall u: Tid, p: Port | s'.Pc(u).Installing? && p in s'.sessions
      ensures s'.sessions[p] != s'.Pc(u).made {
      if u != t { assert s.Pc(u).Installing?; }
    }
  }

  lemma {:induction false} LookUpKeeps(s: State, t: Tid, port: Port, baud: nat)
    requires Inv(s) && s.Pc(t) == Idle
    ensures RegistryInv(LookUp(s, t, port, baud)) && PrivateInv(LookUp(s, t, port, baud))
  {
    var s' := LookUp(s, t, port, baud);
    PrivateKept(s, s', t);
    forall i: Sid | Live(s', i) ensures Registered(s', i) {
      if Live(s, i) { assert Registered(s, i); }
    }
  }

  lemma {:induction false} ConstructKeeps(s: State, t: Tid)
    requires Inv(s) && Enabled(s, OpenConstructs(t))
    ensures RegistryInv(Do(s, OpenConstructs(t))) && PrivateInv(Do(s, OpenConstructs(t)))
  {
    var s' := Do(s, OpenConstructs(t));
    PrivateKept(s, s', t);
    forall i: Sid | Live(s', i) ensures Registered(s', i) {
      assert Live(s, i) && Registered(s, i);
    }
  }

  lemma {:induction false} InstallKeeps(s: State, t: Tid)
    requires Inv(s) && Enabled(s, OpenInstalls(t))
    ensures RegistryInv(Do(s, OpenInstalls(t))) && PrivateInv(Do(s, OpenInstalls(t)))
  {
    assert PcInv(s, s.Pc(t));
    InstallGrows(s, t, s.Pc(t).stale, s.Pc(t).made);
    PrivateKept(s, Do(s, OpenInstalls(t)), t);
    InstallRegisters(s, t);
  }

  lemma {:induction false} InstallRegisters(s: State, t: Tid)
    requires Inv(s) && Enabled(s, OpenInstalls(t))
    ensures RegistryInv(Do(s, OpenInstalls(t)))
  {
    assert PcInv(s, s.Pc(t));
    var s' := Do(s, OpenInstalls(t));
    forall i: Sid | Live(s', i) ensures Registered(s', i) {
      if Live(s, i) { assert Registered(s, i); }
    }
  }

  lemma {:induction false} InvStep(s: State, step: Step)
    requires Inv(s) && Enabled(s, step)
    ensures Inv(Do(s, step))
  {
    PcStep(s, step);
    match step
    case OpenLooksUp(t, port, baud) => LookUpKeeps(s, t, port, baud);
    case OpenConstructs(t) => ConstructKeeps(s, t);
    case OpenInstalls(t) => InstallKeeps(s, t);
    case _ => StepIsQuiet(s, step); QuietKeeps(s, Do(s, step));
  }

  lemma {:induction false} InvHolds(s: State, run: seq<Step>)
    requires Inv(s) && CanRun(s, run)
    ensures Inv(After(s, run))
    decreases |run|
  {
    if run != [] {
      InvStep(s, run[0]);
      InvHolds(Do(s, run[0]), run[1..]);
    }
  }

  /** In every interleaving of open, close and close_port, a session that open returned, that is
      still open and that nobody picked for closing is the one registered under its port. */
  lemma {:induction false} LiveSessionsAreNeverOrphaned(run: seq<Step>, i: Sid)
    requires CanRun(START, run) && Live(After(START, run), i)
    ensures Registered(After(START, run), i)
  {
    InvHolds(START, run);
  }

  predicate Holds(s: State, port: Port, i: Sid) { port in s.sessions && s.sessions[port] == i }

  /** What one step may do to a port's entry: an opener that finds it free or held by a closed session
      puts its own there; a finished close takes out its own session, closed by then; and only
      close_port takes out whatever is there. */
  ghost predicate EntryMoves(s: State, step: Step, port: Port)
    requires Enabled(s, step)
  {
    var s' := Do(s, step);
    || (port in s'.sessions && Holds(s, port, s'.sessions[port]))
    || (port !in s.sessions && port !in s'.sessions)
    || (step.OpenInstalls? && port == s.handles[s.Pc(step.tid).made].port && Holds(s', port, s.Pc(step.tid).made)
        && (port in s.sessions ==> !s.Open(s.sessions[port])))
    || (step.CloseUnregisters? && port !in s'.sessions && Holds(s, port, s.Pc(step.tid).sid) && !s.Open(s.sessions[port]))
    || (step.ClosePortPops? && port == step.port && port !in s'.sessions)
  }

  lemma {:induction false} EntriesMove(s: State, step: Step, port: Port)
    requires Inv(s) && Enabled(s, step)
    ensures EntryMoves(s, step, port)
  {
    match step
    case OpenInstalls(t) => assert PcInv(s, s.Pc(t));
    case CloseUnregisters(t) => assert PcInv(s, s.Pc(t));
    case _ =>
  }

  /** In every interleaving each step moves each entry only so. */
  lemma {:induction false} RegistryMoves(run: seq<Step>, step: Step, port: Port)
    requires CanRun(START, run) && Enabled(After(START, run), step)
    ensures EntryMoves(After(START, run), step, port)
  {
    InvHolds(START, run);
    EntriesMove(After(START, run), step, port);
  }

  predicate Pops(step: Step, port: Port) { step.ClosePortPops? && step.port == port }

  lemma {:induction false} EntryStays(s: State, run: seq<Step>, port: Port, i: Sid)
    requires Inv(s) && CanRun(s, run) && Holds(s, port, i) && After(s, run).Open(i)
    requires forall k :: 0 <= k < |run| ==> !Pops(run[k], port)
    ensures Holds(After(s, run), port, i)
    decreases |run|
  {
    if run != [] {
      var s' := Do(s, run[0]);
      InvStep(s, run[0]);
      RunGrows(s', run[1..]);
      StepGrows(s, run[0]);
      assert i < |s.handles| && Older(s.handles[i], s'.handles[i]) && Older(s'.handles[i], After(s', run[1..]).handles[i]);
      EntriesMove(s, run[0], port);
      EntryStays(s', run[1..], port, i);
    }
  }

  lemma {:induction false} RunGrows(s: State, run: seq<Step>)
    requires Inv(s) && CanRun(s, run)
    ensures Grows(s, After(s, run))
    decreases |run|
  {
    if run != [] {
      InvStep(s, run[0]);
      StepGrows(s, run[0]);
      RunGrows(Do(s, run[0]), run[1..]);
      GrowsTwice(s, Do(s, run[0]), After(s, run));
    }
  }

  /** However opens and closes interleave, a session once registered and still open has kept its
      entry, though it may have been picked for closing meanwhile, unless close_port popped its port. */
  lemma {:induction false} OpenSessionsKeepTheirEntry(before: seq<Step>, later: seq<Step>, port: Port, i: Sid)
    requires CanRun(START, before) && CanRun(After(START, before), later) && Holds(After(START, before), port, i)
    requires After(After(START, before), later).Open(i) && forall k :: 0 <= k < |later| ==> !Pops(later[k], port)
    ensures Holds(After(After(START, before), later), port, i)
  {
    InvHolds(START, before);
    EntryStays(After(START, before), later, port, i);
  }

  // ------------------------------------------------------------------ what was picked is closed

  predicate AboutToClose(pc: Pc, i: Sid) { pc == Closing(i) || pc == ClosingPort(i) }

  /** A session picked for closing is closed, or some thread is about to. */
  ghost predicate PickedInv(s: State, i: Sid) {
    i < |s.handles| && s.handles[i].targeted && s.handles[i].open ==> exists t: Tid :: AboutToClose(s.Pc(t), i)
  }

  /** Only a close, a close_port or an open that lost picks a session, and in the same step the thread is
      about to close it or has. */
  lemma {:induction false} PickedNow(s: State, step: Step, i: Sid)
    requires Inv(s) && Enabled(s, step)
    ensures var s' := Do(s, step);
            i < |s'.handles| && s'.handles[i].targeted && s'.handles[i].open ==>
              (i < |s.handles| && s.handles[i].targeted && s.handles[i].open)
              || (!step.SessionFails? && AboutToClose(s'.Pc(step.tid), i))
  {
    hide Inv, RegistryInv, PrivateInv, PcInv;
  }

  /** A thread about to close a session closes it with its next step. */
  lemma {:induction false} ClosesNext(s: State, step: Step, t: Tid, i: Sid)
    requires Inv(s) && Enabled(s, step) && AboutToClose(s.Pc(t), i)
    ensures var s' := Do(s, step); AboutToClose(s'.Pc(t), i) || (i < |s'.handles| && !s'.handles[i].open)
  {
    hide RegistryInv, PrivateInv;
    assert PcInv(s, s.Pc(t));
    if Some(t) != Mover(step) { StepFrame(s, step); }
  }

  lemma {:induction false} PickedStep(s: State, step: Step, i: Sid)
    requires Inv(s) && Enabled(s, step) && PickedInv(s, i)
    ensures PickedInv(Do(s, step), i)
  {
    hide Inv, Do, Enabled;
    var s' := Do(s, step);
    if i < |s'.handles| && s'.handles[i].targeted && s'.handles[i].open {
      PickedNow(s, step, i);
      if i < |s.handles| && s.handles[i].targeted && s.handles[i].open {
        var t: Tid :| AboutToClose(s.Pc(t), i);
        ClosesNext(s, step, t, i);
      }
    }
  }

  lemma {:induction false} PickedHolds(s: State, run: seq<Step>, i: Sid)
    requires Inv(s) && CanRun(s, run) && PickedInv(s, i)
    ensures PickedInv(After(s, run), i)
    decreases |run|
  {
    hide Inv, PickedInv;
    if run != [] {
      InvStep(s, run[0]);
      PickedStep(s, run[0], i);
      PickedHolds(Do(s, run[0]), run[1..], i);
    }
  }

  /** In every interleaving a session that a close, a close_port, a stale clean-up or a lost open has picked
      is closed, unless some thread is still about to close it. */
  lemma {:induction false} PickedSessionsAreClosed(run: seq<Step>, i: Sid)
    requires CanRun(START, run)
    ensures var s := After(START, run);
            i < |s.handles| && s.handles[i].targeted && (forall t: Tid :: !AboutToClose(s.Pc(t), i)) ==> !s.handles[i].open
  {
    PickedHolds(START, run, i);
  }

  /** And a close or close_port gets no further while its session is open. */
  lemma {:induction false} ClosesFinishClosed(before: seq<Step>, later: seq<Step>, t: Tid, i: Sid)
    requires CanRun(START, before) && CanRun(After(START, before), later) && AboutToClose(After(START, before).Pc(t), i)
    ensures var s := After(After(START, before), later);
            i < |s.handles| && (AboutToClose(s.Pc(t), i) || !s.handles[i].open)
  {
    InvHolds(START, before);
    CloseGoesOn(After(START, before), later, t, i);
  }

  lemma {:induction false} CloseGoesOn(s: State, run: seq<Step>, t: Tid, i: Sid)
    requires Inv(s) && CanRun(s, run) && (AboutToClose(s.Pc(t), i) || (i < |s.handles| && !s.handles[i].open))
    ensures var s' := After(s, run); i < |s'.handles| && (AboutToClose(s'.Pc(t), i) || !s'.handles[i].open)
    decreases |run|
  {
    assert PcInv(s, s.Pc(t));
    if run != [] {
      var s' := Do(s, run[0]);
      InvStep(s, run[0]);
      StepGrows(s, run[0]);
      assert i < |s.handles| && Older(s.handles[i], s'.handles[i]);
      if AboutToClose(s.Pc(t), i) { ClosesNext(s, run[0], t, i); }
      CloseGoesOn(s', run[1..], t, i);
    }
  }

  /** An open that comes second closes the session it made; a close_port picks what it took out. */
  lemma {:induction false} LosersAreClosed(run: seq<Step>, t: Tid)
    requires CanRun(START, run) && Enabled(After(START, run), OpenInstalls(t))
    ensures var s := After(START, run);
            var (s', made) := (Do(s, OpenInstalls(t)), s.Pc(t).made);
            made < |s'.handles| && Returns(s, OpenInstalls(t)).Some?
            && (Returns(s, OpenInstalls(t)) != Some(made) ==> !s'.handles[made].open && s'.handles[made].targeted)
  {
    InvHolds(START, run);
    assert PcInv(After(START, run), After(START, run).Pc(t));
  }

  /** Before an open constructs a session it has closed the one it found. */
  lemma {:induction false} StaleIsClosedFirst(run: seq<Step>, t: Tid)
    requires CanRun(START, run) && Enabled(After(START, run), OpenConstructs(t))
    ensures var s := After(START, run);
            var stale := s.Pc(t).stale;
            stale.Some? ==> stale.value < |s.handles| && !s.handles[stale.value].open && s.handles[stale.value].targeted
                            && s.handles[stale.value].port == s.Pc(t).port
  {
    InvHolds(START, run);
    assert PcInv(After(START, run), After(START, run).Pc(t));
  }

  /** What `open` answers at its first look: an open session at the same rate is handed out and one at
      another rate refused, either way at once and without touching anything else; otherwise it goes on. */
  lemma {:induction false} FirstLookAnswers(run: seq<Step>, t: Tid, port: Port, baud: nat)
    requires CanRun(START, run) && Enabled(After(START, run), OpenLooksUp(t, port, baud))
    ensures var s := After(START, run);
            var s' := Do(s, OpenLooksUp(t, port, baud));
            if port in s.sessions && s.Open(s.sessions[port]) then
              var (i, h) := (s.sessions[port], s.handles[s.sessions[port]]);
              s'.Pc(t) == Idle && s' == (if h.baud == baud then s.(handles := s.handles[i := h.(returned := true)]) else s)
            else
              s' == s.(pcs := s'.pcs)
              && s'.Pc(t) == Opening(port, baud, if port in s.sessions then Some(s.sessions[port]) else None, false)
  {
  }

  // ------------------------------------------------------------------ the rate asked for

  type Request = (Port, nat)

  function Noted(asked: map<Tid, Request>, step: Step): map<Tid, Request> {
    if step.OpenLooksUp? then asked[step.tid := (step.port, step.baud)] else asked
  }

  /** What each thread's last `open` in a run asked for: port and baud. */
  function Requests(asked: map<Tid, Request>, run: seq<Step>): map<Tid, Request>
    decreases |run|
  {
    if run == [] then asked else Requests(Noted(asked, run[0]), run[1..])
  }

  predicate AskedFor(asked: map<Tid, Request>, t: Tid, port: Port, baud: nat) { t in asked && asked[t] == (port, baud) }

  /** An `open` under way works on what its thread asked for. */
  ghost predicate Asking(s: State, asked: map<Tid, Request>, t: Tid) {
    var pc := s.Pc(t);
    (pc.Opening? ==> AskedFor(asked, t, pc.port, pc.baud))
    && (pc.Installing? ==> pc.made < |s.handles| && AskedFor(asked, t, s.handles[pc.made].port, s.handles[pc.made].baud))
  }

  lemma {:induction false} AskingStep(s: State, asked: map<Tid, Request>, step: Step)
    requires Inv(s) && Enabled(s, step) && forall t: Tid :: Asking(s, asked, t)
    ensures forall t: Tid :: Asking(Do(s, step), Noted(asked, step), t)
  {
    StepFrame(s, step);
    var s' := Do(s, step);
    forall t: Tid ensures Asking(s', Noted(asked, step), t) {
      assert Asking(s, asked, t);
      if Some(t) != Mover(step) {
        AskingFramed(s, s', asked, Noted(asked, step), t);
      }
    }
  }

  lemma {:induction false} AskingFramed(s: State, s': State, asked: map<Tid, Request>, asked': map<Tid, Request>, t: Tid)
    requires Asking(s, asked, t) && Grows(s, s') && s'.Pc(t) == s.Pc(t)
    requires t in asked ==> t in asked' && asked'[t] == asked[t]
    ensures Asking(s', asked', t)
  {
  }

  lemma {:induction false} AskingHolds(s: State, asked: map<Tid, Request>, run: seq<Step>)
    requires Inv(s) && CanRun(s, run) && forall t: Tid :: Asking(s, asked, t)
    ensures forall t: Tid :: Asking(After(s, run), Requests(asked, run), t)
    decreases |run|
  {
    if run != [] {
      InvStep(s, run[0]);
      AskingStep(s, asked, run[0]);
      AskingHolds(Do(s, run[0]), Noted(asked, run[0]), run[1..]);
    }
  }

  /** The session a step hands to the caller of `open`. */
  function Returns(s: State, step: Step): Option<Sid>
    requires Enabled(s, step)
  {
    match step
    case OpenLooksUp(_, port, baud) =>
      if port in s.sessions && s.Open(s.sessions[port]) && s.handles[s.sessions[port]].baud == baud
      then Some(s.sessions[port]) else None
    case OpenInstalls(t) =>
      var (stale, made) := (s.Pc(t).stale, s.Pc(t).made);
      var port := s.handles[made].port;
      Some(if Taken(s.sessions, port, stale, (i: Sid) => s.Open(i)) then s.sessions[port] else made)
    case _ => None
  }

  /** An opener comes second to a newer open session, at another rate than its own. */
  predicate LosesToAnotherRate(s: State, step: Step)
    requires Enabled(s, step)
  {
    step.OpenInstalls?
    && (var (stale, own) := (s.Pc(step.tid).stale, s.handles[s.Pc(step.tid).made]);
        Taken(s.sessions, own.port, stale, (i: Sid) => s.Open(i)) && s.handles[s.sessions[own.port]].baud != own.baud)
  }

  /** In every interleaving `open` returns a session on the port asked for; and at the rate asked for
      exactly when it did not lose the port to a newer open session at another rate. */
  lemma {:induction false} OpenReturnsTheRateUnlessItLost(run: seq<Step>, step: Step)
    requires CanRun(START, run) && Enabled(After(START, run), step) && Returns(After(START, run), step).Some?
    ensures var (s, asked) := (After(START, run), Noted(Requests(map[], run), step));
            var i := Returns(s, step).value;
            step.tid in asked && i < |s.handles| && s.handles[i].port == asked[step.tid].0
            && (s.handles[i].baud == asked[step.tid].1 <==> !LosesToAnotherRate(s, step))
  {
    InvHolds(START, run);
    AskingHolds(START, map[], run);
    assert Asking(After(START, run), Requests(map[], run), step.tid);
  }

  /** The second locked region does not look at the rate: of two threads that open one free port at
      different rates, the second to install gets the other's session. */
  lemma {:induction false} RacingOpenReturnsAnotherRate(port: Port, slow: nat, fast: nat)
    requires slow != fast
    ensures var run := [OpenLooksUp(0, port, slow), OpenLooksUp(1, port, fast), OpenConstructs(0), OpenConstructs(1), OpenInstalls(0)];
            CanRun(START, run) && Enabled(After(START, run), OpenInstalls(1))
            && Returns(After(START, run), OpenInstalls(1)) == Some(0) && After(START, run).handles[0].baud == slow
            && AskedFor(Requests(map[], run), 1, port, fast)
  {
    hide Do, Enabled, Returns, Requests;
    var (a, b, c, d, e) := (OpenLooksUp(0, port, slow), OpenLooksUp(1, port, fast), OpenConstructs(0), OpenConstructs(1), OpenInstalls(0));
    RequestsOfRace(port, slow, fast);
    var s1, s2 := BothLookUp(port, slow, fast);
    var s3, s4, s5 := BothConstruct(s2, port, slow, fast);
    assert After(s5, []) == s5;
    RunCons(s4, e, []);
    RunCons(s3, d, [e]);
    RunCons(s2, c, [d, e]);
    RunCons(s1, b, [c, d, e]);
    RunCons(START, a, [b, c, d, e]);
    assert [a] + [b, c, d, e] == [a, b, c, d, e] && [b] + [c, d, e] == [b, c, d, e] && [c] + [d, e] == [c, d, e];
    assert [d] + [e] == [d, e] && [e] + [] == [e];
  }

  /** Both find the port free. */
  lemma {:induction false} BothLookUp(port: Port, slow: nat, fast: nat) returns (s1: State, s2: State)
    ensures Enabled(START, OpenLooksUp(0, port, slow)) && s1 == Do(START, OpenLooksUp(0, port, slow))
    ensures Enabled(s1, OpenLooksUp(1, port, fast)) && s2 == Do(s1, OpenLooksUp(1, port, fast))
    ensures s2 == State([], map[], map[0 := Opening(port, slow, None, false), 1 := Opening(port, fast, None, false)])
  {
    s1 := Do(START, OpenLooksUp(0, port, slow));
    s2 := Do(s1, OpenLooksUp(1, port, fast));
  }

  /** Both construct a session; the first installs its own, and the second then gets that one. */
  lemma {:induction false} BothConstruct(s2: State, port: Port, slow: nat, fast: nat) returns (s3: State, s4: State, s5: State)
    requires s2 == State([], map[], map[0 := Opening(port, slow, None, false), 1 := Opening(port, fast, None, false)])
    ensures Enabled(s2, OpenConstructs(0)) && s3 == Do(s2, OpenConstructs(0))
    ensures Enabled(s3, OpenConstructs(1)) && s4 == Do(s3, OpenConstructs(1))
    ensures Enabled(s4, OpenInstalls(0)) && s5 == Do(s4, OpenInstalls(0))
    ensures Enabled(s5, OpenInstalls(1)) && Returns(s5, OpenInstalls(1)) == Some(0) && |s5.handles| > 0 && s5.handles[0].baud == slow
  {
    s3 := Do(s2, OpenConstructs(0));
    s4 := Do(s3, OpenConstructs(1));
    s5 := Do(s4, OpenInstalls(0));
  }

  lemma {:induction false} RequestsOfRace(port: Port, slow: nat, fast: nat)
    ensures AskedFor(Requests(map[], [OpenLooksUp(0, port, slow), OpenLooksUp(1, port, fast),
                                         OpenConstructs(0), OpenConstructs(1), OpenInstalls(0)]),
                     1, port, fast)
  {
    var (a, b, rest) := (OpenLooksUp(0, port, slow), OpenLooksUp(1, port, fast), [OpenConstructs(0), OpenConstructs(1), OpenInstalls(0)]);
    var asked := map[0 := (port, slow), 1 := (port, fast)];
    assert [a, b] + rest == [a, b, OpenConstructs(0), OpenConstructs(1), OpenInstalls(0)];
    assert ([a, b] + rest)[1..] == [b] + rest && ([b] + rest)[1..] == rest;
    NoMoreRequests(asked, rest);
    assert Requests(map[0 := (port, slow)], [b] + rest) == asked;
  }

  lemma {:induction false} NoMoreRequests(asked: map<Tid, Request>, run: seq<Step>)
    requires forall k :: 0 <= k < |run| ==> !run[k].OpenLooksUp?
    ensures Requests(asked, run) == asked
    decreases |run|
  {
    if run != [] { NoMoreRequests(asked, run[1..]); }
  }

  lemma {:induction false} RunCons(s: State, step: Step, run: seq<Step>)
    ensures Enabled(s, step) && CanRun(Do(s, step), run) ==>
              CanRun(s, [step] + run) && After(s, [step] + run) == After(Do(s, step), run)
  {
    assert ([step] + run)[1..] == run;
  }

  /** The lock-protected regions on the `_sessions` dict itself. */
  class Sessions {
    var sessions: map<Port, Sid>

    constructor ()
      ensures sessions == map[]
    {
      sessions := map[];
    }

    predicate Hold(port: Port, sid: Sid)
      reads this
    {
      port in sessions && sessions[port] == sid
    }

    /** `open` after constructing `made`: the session the caller gets. */
    method InstallOrLose(port: Port, stale: Option<Sid>, made: Sid, isOpen: Sid -> bool) returns (winner: Sid)
      modifies this
      ensures winner == if Taken(old(sessions), port, stale, isOpen) then old(sessions)[port] else made
      ensures sessions == Entered(old(sessions), port, stale, made, isOpen) && Hold(port, winner)
    {
      if port in sessions {
        var current := sessions[port];
        if Some(current) != stale && isOpen(current) {
          return current;
        }
      }
      sessions := sessions[port := made];
      return made;
    }

    method Forget(port: Port, sid: Sid)
      modifies this
      ensures sessions == Unregister(old(sessions), port, sid)
    {
      if port in sessions && sessions[port] == sid {
        sessions := sessions - {port};
      }
    }

    method Pop(port: Port) returns (popped: Option<Sid>)
      modifies this
      ensures popped == if port in old(sessions) then Some(old(sessions)[port]) else None
      ensures sessions == Popped(old(sessions), port)
    {
      if port !in sessions {
        return None;
      }
      popped := Some(sessions[port]);
      sessions := sessions - {port};
    }
  }
}
