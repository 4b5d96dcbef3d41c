/**
 One firmware upload (upload_sketch in flash.py and in server.py): every step may raise, and the
 order in which the others then run is what matters.
*/
module UploadRun {
  import opened Wrappers

  datatype Exc = Tool(code: string) | Os(name: string) | Other(name: string)
  datatype Outcome = Fine | Raised(exc: Exc)

  const AUDIT_LOG_FAILED := "AUDIT_LOG_FAILED"
  const ARTIFACT_INVALID := "ARTIFACT_INVALID"

  datatype Step =
    | ResolveSketch | CheckFqbn | ResolveArtifact | VerifyToken | CopyArtifact | MatchDigest | PickUf2
    | Probe | Charge | Release | LogStarted | Write | KeepElf | CleanUp | LogFinished | Reopen | Journal

  /** `error` is what an upload_finished record says, if it says anything. */
  datatype Event = Event(step: Step, outcome: Outcome, error: Option<string>)

  type Log = seq<Event>

  function Only(log: Log, keep: Step -> bool): Log {
    if log == [] then []
    else
      var (rest, e) := (Only(log[..|log| - 1], keep), log[|log| - 1]);
      if keep(e.step) then rest + [e] else rest
  }

  lemma {:induction false} OnlyAppend(log: Log, e: Event, keep: Step -> bool)
    ensures Only(log + [e], keep) == if keep(e.step) then Only(log, keep) + [e] else Only(log, keep)
  {
    assert (log + [e])[..|log|] == log;
  }

  /** What `str(code)` the log gives an exception. */
  function Name(exc: Exc): string { if exc.Tool? then exc.code else exc.name }

  // ------------------------------------------------------------------ the two orders

  /** The steps every upload takes in turn; a directory is a Pico's BOOTSEL volume. */
  function Plan(volume: bool): seq<Step> {
    [ResolveSketch, CheckFqbn, ResolveArtifact, VerifyToken, CopyArtifact, MatchDigest]
    + (if volume then [PickUf2] else [])
    + [Charge, LogStarted, Write, LogFinished]
  }

  function Planned(): Step -> bool {
    s => s !in {Probe, Release, KeepElf, CleanUp, Reopen, Journal}
  }

  /** The steps were taken in the plan's order, each after the last had succeeded; a write is always
      followed by its finishing record, and nothing stops between the starting record and the write. */
  predicate FollowsPlan(k: Log, volume: bool) {
    var plan := Plan(volume);
    var n := |plan|;
    |k| <= n
    && (forall i :: 0 <= i < |k| ==> k[i].step == plan[i])
    && (forall i :: 0 <= i < |k| - 1 ==> k[i].step == Write || k[i].outcome.Fine?)
    && |k| != n - 1 && (|k| == n - 2 ==> k[n - 3].outcome.Raised?)
  }

  /** The first m steps of the plan, all of them successful. */
  predicate OnPlan(k: Log, volume: bool, m: nat) {
    |k| == m <= |Plan(volume)| && forall i :: 0 <= i < m ==> k[i].step == Plan(volume)[i] && k[i].outcome.Fine?
  }

  lemma {:induction false} PlanStops(k: Log, volume: bool, m: nat, e: Event)
    requires OnPlan(k, volume, m) && m <= |Plan(volume)| - 3 && e.step == Plan(volume)[m]
    ensures e.outcome.Fine? ==> OnPlan(k + [e], volume, m + 1)
    ensures e.outcome.Raised? ==> FollowsPlan(k + [e], volume)
  {
  }

  lemma {:induction false} PlanSteps(volume: bool, m: nat)
    requires m <= |Plan(volume)| - 3
    ensures var step := Plan(volume)[m];
            Planned()(step) && (Touching()(step) <==> step == Charge) && (Copying()(step) <==> step == CopyArtifact)
  {
  }

  lemma {:induction false} OnPlanLength(k: Log, volume: bool, m: nat)
    requires OnPlan(k, volume, m)
    ensures |k| == m
  {
  }

  lemma {:induction false} PlanEnds(k: Log, volume: bool, write: Event, finish: Event)
    requires OnPlan(k, volume, |Plan(volume)| - 2) && write.step == Write && finish.step == LogFinished
    ensures FollowsPlan(k + [write] + [finish], volume)
  {
  }

  /** The write has been tried after everything the plan puts before it. */
  predicate WroteOnPlan(k: Log, volume: bool) {
    var n := |Plan(volume)|;
    |k| == n - 1 && OnPlan(k[..n - 2], volume, n - 2) && k[n - 2].step == Write
  }

  lemma {:induction false} WriteTaken(k: Log, volume: bool, e: Event)
    requires OnPlan(k, volume, |Plan(volume)| - 2) && e.step == Write
    ensures WroteOnPlan(k + [e], volume) && (k + [e])[|Plan(volume)| - 2] == e
  {
    assert (k + [e])[..|k|] == k;
  }

  function Copying(): Step -> bool { s => s in {CopyArtifact, Write, KeepElf, CleanUp, LogFinished} }

  predicate Is(e: Event, step: Step) { e.step == step }
  predicate Did(e: Event, step: Step) { e.step == step && e.outcome.Fine? }

  function Touching(): Step -> bool { s => s in {Release, Probe, Charge, Write, Reopen} }

  /** What is done around the port, in turn: a chip that must be asked for its MAC is asked with the port
      free, before the charge; otherwise the port is let go only after it. */
  function PortPlan(had: bool, asks: bool): seq<Step> {
    if asks then (if had then [Release] else []) + [Probe, Charge, Write]
    else [Charge] + (if had then [Release] else []) + [Write]
  }

  /** A chip that does not answer stops nothing; what a write comes to is for the record. */
  predicate Passed(e: Event) { e.outcome.Fine? || (e.step == Probe && e.outcome.exc.Tool?) || e.step == Write }

  /** The first m of these steps, all passed. */
  predicate PortAt(t: Log, had: bool, asks: bool, m: nat) {
    |t| == m <= |PortPlan(had, asks)| && forall i :: 0 <= i < m ==> t[i].step == PortPlan(had, asks)[i] && Passed(t[i])
  }

  /** They were taken in turn until one did not pass; or all of them, or all but the write. */
  predicate PortKept(t: Log, had: bool, asks: bool) {
    var (plan, n) := (PortPlan(had, asks), |t| - 1);
    t == []
    || (PortAt(t[..n], had, asks, n) && n < |plan| && t[n].step == plan[n] && (Passed(t[n]) ==> n >= |plan| - 2))
  }

  predicate LetGo(t: Log) { exists i :: 0 <= i < |t| && Did(t[i], Release) }

  /** A port that was let go, and only such a port, is taken again, once and last. */
  predicate SessionKept(t: Log, had: bool, asks: bool) {
    if LetGo(t) then Is(t[|t| - 1], Reopen) && PortKept(t[..|t| - 1], had, asks) else PortKept(t, had, asks)
  }

  lemma {:induction false} PortGoesOn(t: Log, had: bool, asks: bool, m: nat, e: Event)
    requires PortAt(t, had, asks, m) && m < |PortPlan(had, asks)| && e.step == PortPlan(had, asks)[m]
    ensures Passed(e) ==> PortAt(t + [e], had, asks, m + 1)
    ensures !Passed(e) || m >= |PortPlan(had, asks)| - 2 ==> PortKept(t + [e], had, asks)
  {
    assert (t + [e])[..m] == t;
  }

  lemma {:induction false} Nothing(had: bool, asks: bool)
    ensures PortAt([], had, asks, 0) && PortKept([], had, asks) && !LetGo([])
  {
  }

  lemma {:induction false} PortPlanIs(had: bool, asks: bool)
    ensures var plan := PortPlan(had, asks);
            && |plan| == (if had then 1 else 0) + (if asks then 3 else 2) && plan[|plan| - 1] == Write
            && (if had && asks then plan[0] == Release && plan[1] == Probe && plan[2] == Charge
                else if asks then plan[0] == Probe && plan[1] == Charge
                else plan[0] == Charge && (had ==> plan[1] == Release))
  {
  }

  /** Which of the orders a step belongs to. */
  lemma {:induction false} Belongs()
    ensures !Planned()(Release) && !Planned()(Probe) && Planned()(Charge) && Planned()(Write)
    ensures Touching()(Release) && Touching()(Probe) && Touching()(Charge) && Touching()(Write)
    ensures !Copying()(Release) && !Copying()(Probe) && !Copying()(Charge) && Copying()(Write)
  {
  }

  lemma {:induction false} FreshRun(volume: bool)
    ensures Only([], Planned()) == [] && Only([], Touching()) == [] && Only([], Copying()) == []
    ensures OnPlan([], volume, 0) && Failing([]).Fine?
  {
  }

  lemma {:induction false} NothingCopied(keeps: bool)
    ensures SnapshotRemoved([], keeps)
  {
  }

  lemma {:induction false} CopiedAndGone(s: Log, keeps: bool)
    requires GoneAgain(s, false, keeps)
    ensures SnapshotRemoved(s, keeps)
  {
  }

  lemma {:induction false} FreeIsHeld(t: Log, had: bool, asks: bool)
    requires PortAt(t, had, asks, |PortPlan(had, asks)| - 1)
    ensures PortKept(t, had, asks) && (LetGo(t) <==> had)
  {
    LetGoAt(t, had, asks, |t|);
    if t != [] { assert PortAt(t[..|t| - 1], had, asks, |t| - 1); }
  }

  lemma {:induction false} PlanLength(volume: bool)
    ensures var n := |Plan(volume)|;
            n == (if volume then 11 else 10) && Plan(volume)[n - 4] == Charge && Plan(volume)[n - 3] == LogStarted
            && Plan(volume)[n - 2] == Write
    ensures volume ==> Plan(volume)[6] == PickUf2
  {
  }

  lemma {:induction false} PlanFollows(k: Log, volume: bool, m: nat)
    requires OnPlan(k, volume, m) && m <= |Plan(volume)| - 3
    ensures FollowsPlan(k, volume) && |k| == m
  {
  }

  /** The port is free exactly when its release is among the steps that passed. */
  lemma {:induction false} LetGoAt(t: Log, had: bool, asks: bool, m: nat)
    requires PortAt(t, had, asks, m)
    ensures LetGo(t) <==> had && m > if asks then 0 else 1
  {
    if had && m > (if asks then 0 else 1) { assert Did(t[if asks then 0 else 1], Release); }
  }

  lemma {:induction false} LetGoNext(t: Log, e: Event)
    ensures LetGo(t + [e]) <==> LetGo(t) || Did(e, Release)
  {
    if LetGo(t) {
      var i :| 0 <= i < |t| && Did(t[i], Release);
      assert (t + [e])[i] == t[i];
    }
    if Did(e, Release) { assert (t + [e])[|t|] == e; }
  }

  /** The private copy of the artifact, once it was tried, with what was done from it so far. */
  predicate InHand(s: Log, written: bool, keeps: bool) {
    s != [] && Is(s[0], CopyArtifact)
    && if written then |s| >= 2 && Is(s[1], Write)
                       && if keeps && s[1].outcome.Fine? then |s| == 3 && Is(s[2], KeepElf) else |s| == 2
       else |s| == 1
  }

  lemma {:induction false} WrittenInHand(s: Log, write: Event, keeps: bool)
    requires InHand(s, false, keeps) && Is(write, Write)
    ensures !(keeps && write.outcome.Fine?) ==> InHand(s + [write], true, keeps)
  {
  }

  lemma {:induction false} KeptInHand(s: Log, write: Event, kept: Event, keeps: bool)
    requires InHand(s, false, keeps) && Did(write, Write) && Is(kept, KeepElf) && keeps
    ensures InHand(s + [write] + [kept], true, keeps)
  {
  }

  predicate GoneAgain(s: Log, written: bool, keeps: bool) {
    s != [] && InHand(s[..|s| - 1], written, keeps) && Is(s[|s| - 1], CleanUp)
  }

  /** The copy is removed exactly once, after anything written or kept from it, and before the
      finishing record; the ELF is kept exactly after a write that worked, if it is to be kept. */
  predicate SnapshotRemoved(s: Log, keeps: bool) {
    s == [] || GoneAgain(s, false, keeps) || (GoneAgain(s[..|s| - 1], true, keeps) && Is(s[|s| - 1], LogFinished))
  }

  lemma {:induction false} NotedAfterRemoval(s: Log, finish: Event, keeps: bool)
    requires GoneAgain(s, true, keeps) && Is(finish, LogFinished)
    ensures SnapshotRemoved(s + [finish], keeps)
  {
    assert (s + [finish])[..|s|] == s;
  }

  /** What a step that raised is turned into: a chip that does not answer and an ELF that cannot be kept
      stop nothing; a copy that cannot be made and a log that cannot be written become ToolErrors. */
  function Shown(step: Step, o: Outcome): Outcome {
    if step in {Reopen, Journal} || o.Fine? then Fine
    else if step == Probe && o.exc.Tool? then Fine
    else if step == KeepElf && o.exc.Os? then Fine
    else if step == CopyArtifact && o.exc.Os? then Raised(Tool("ARTIFACT_INVALID"))
    else if step in {LogStarted, LogFinished} && o.exc.Os? then Raised(Tool("AUDIT_LOG_FAILED"))
    else o
  }

  /** The last exception the upload itself let out. */
  function Failing(log: Log): Outcome {
    if log == [] then Fine
    else
      var last := log[|log| - 1];
      var o := Shown(last.step, last.outcome);
      if o.Raised? then o else Failing(log[..|log| - 1])
  }

  lemma {:induction false} FailingAppend(log: Log, e: Event)
    ensures Failing(log + [e]) == if Shown(e.step, e.outcome).Raised? then Shown(e.step, e.outcome) else Failing(log)
  {
    assert (log + [e])[..|log|] == log;
  }

  /** What the upload comes to is the last exception it let out; without one, and with the artifact named
      that it needs, whether the uploader's return code was 0. */
  predicate Concluded(log: Log, artifactNamed: bool, worked: bool, r: Flashed) {
    r == match Failing(log)
         case Raised(exc) => Failed(exc)
         case Fine => if artifactNamed then Done(worked) else Failed(Tool("ARTIFACT_INVALID"))
  }

  /** What the caller is told agrees with what the finishing record says. */
  predicate Told(k: Log, volume: bool, r: Flashed) {
    var n := |Plan(volume)|;
    if |k| != n then r.Failed?
    else
      var (write, finish) := (k[n - 2], k[n - 1]);
      if finish.outcome.Raised? then r.Failed?
      else if r.Done? then write.outcome.Fine? && finish.error == None
      else finish.error == Some(Name(r.exc))
  }

  /** Not a ToolError, so not turned into a result. */
  predicate Foreign(o: Outcome) { o.Raised? && !o.exc.Tool? }

  predicate Unjournaled(log: Log) { forall i :: 0 <= i < |log| ==> log[i].step != Journal }

  /** The upload is journaled once, when everything else is over. */
  predicate JournaledLast(log: Log) {
    log != [] && log[|log| - 1].step == Journal && Unjournaled(log[..|log| - 1])
  }

  predicate JournalBroke(log: Log) {
    log != [] && (var last := log[|log| - 1]; last.step == Journal && last.outcome.Raised? && last.outcome.exc.Other?)
  }

  /** The reply names the new session, or says why there is none, exactly when nothing but
      ToolErrors came out of the upload, the reopening and (after a success) the journal. */
  predicate Reported(t: Log, log: Log, r: Reply, flashed: Flashed)
    requires |t| > 0
  {
    var reopen := t[|t| - 1].outcome;
    (r.Reply? ==> !Foreign(reopen) && r.session == if reopen.Fine? then Restored else NotRestored(Name(reopen.exc)))
    && (r.Escaped? <==> (flashed.Failed? && !flashed.exc.Tool?) || Foreign(reopen) || JournalBroke(log))
  }

  // ------------------------------------------------------------------ the run

  /** What each step will come to is fixed in advance, by its kind and by its place in the run. */
  type Oracle = (Step, nat) -> Outcome

  class World {
    const outcomes: Oracle
    var log: Log

    constructor (outcomes: Oracle)
      ensures this.outcomes == outcomes && log == []
    {
      this.outcomes, log := outcomes, [];
    }

    function Plan(): Log
      reads this
    {
      Only(log, Planned())
    }

    function Session(): Log
      reads this
    {
      Only(log, Touching())
    }

    function Snapshot(): Log
      reads this
    {
      Only(log, Copying())
    }

    /** Nothing has been journaled yet. */
    predicate Going()
      reads this
    {
      Answered() && Unjournaled(log)
    }

    predicate Answered()
      reads this
    {
      forall i :: 0 <= i < |log| ==> log[i].outcome == outcomes(log[i].step, i)
    }

    method Take(step: Step, error: Option<string>) returns (o: Outcome)
      requires Answered()
      modifies this
      ensures var e := Event(step, o, error);
              log == old(log) + [e]
              && Plan() == (if Planned()(step) then old(Plan()) + [e] else old(Plan()))
              && Session() == (if Touching()(step) then old(Session()) + [e] else old(Session()))
              && Snapshot() == (if Copying()(step) then old(Snapshot()) + [e] else old(Snapshot()))
      ensures Answered() && (old(Going()) && step != Journal ==> Going())
      ensures Failing(log) == if Shown(step, o).Raised? then Shown(step, o) else old(Failing(log))
    {
      hide Only, Failing, Shown;
      o := outcomes(step, |log|);
      OnlyAppend(log, Event(step, o, error), Planned());
      OnlyAppend(log, Event(step, o, error), Touching());
      OnlyAppend(log, Event(step, o, error), Copying());
      FailingAppend(log, Event(step, o, error));
      log := log + [Event(step, o, error)];
    }
  }

  /** `ok` is whether the uploader's return code was 0. */
  datatype Flashed = Done(ok: bool) | Failed(exc: Exc)

  datatype Session = Untouched | Restored | NotRestored(code: string)
  datatype Reply = Reply(ok: bool, session: Session) | Escaped(exc: Exc)

  class Upload {
    const world: World
    const volume: bool
    const artifactNamed: bool
    const hadSession: bool
    const espBehindBridge: bool
    const keepsElf: bool
    const returncode: int
    var released: bool

    constructor (world: World, volume: bool, artifactNamed: bool, hadSession: bool, espBehindBridge: bool, keepsElf: bool, returncode: int)
      ensures this.world == world && this.volume == volume && this.artifactNamed == artifactNamed
      ensures this.hadSession == hadSession && this.espBehindBridge == espBehindBridge && this.keepsElf == keepsElf
      ensures this.returncode == returncode && !released
    {
      this.world, this.volume, this.artifactNamed := world, volume, artifactNamed;
      this.hadSession, this.espBehindBridge, this.keepsElf := hadSession, espBehindBridge, keepsElf;
      this.returncode, this.released := returncode, false;
    }

    /** The steps around the port are in order, and `released` says whether it is free. */
    ghost predicate Held()
      reads this, world
    {
      PortKept(world.Session(), hadSession, espBehindBridge) && (released <==> LetGo(world.Session()))
    }

    /** All these steps but the write have passed. */
    ghost predicate Free()
      reads this, world
    {
      PortAt(world.Session(), hadSession, espBehindBridge, |PortPlan(hadSession, espBehindBridge)| - 1)
      && (released <==> hadSession)
    }

    /** So far the first m steps of the plan have succeeded. */
    ghost predicate At(m: nat)
      reads world
    {
      world.Going() && OnPlan(world.Plan(), volume, m) && Failing(world.log).Fine?
    }

    /** What the uploader returns; copying a UF2 image counts as 0. */
    function Code(): int { if volume then 0 else returncode }

    function Keeps(): bool { keepsElf && Code() == 0 }

    /** The next step of the plan, before the write. */
    method Next(step: Step, ghost m: nat) returns (o: Outcome)
      requires At(m) && m <= |Plan(volume)| - 3 && Plan(volume)[m] == step
      modifies world
      ensures world.Session() == if step == Charge then old(world.Session()) + [Event(step, o, None)] else old(world.Session())
      ensures world.Snapshot() == if step == CopyArtifact then old(world.Snapshot()) + [Event(step, o, None)] else old(world.Snapshot())
      ensures world.Going() && Failing(world.log) == Shown(step, o)
      ensures if o.Fine? then At(m + 1) else FollowsPlan(world.Plan(), volume) && |world.Plan()| == m + 1
    {
      OnPlanLength(world.Plan(), volume, m);
      hide Only, FollowsPlan, OnPlan, Plan, Planned, Touching, Copying, Failing;
      ghost var k := world.Plan();
      PlanSteps(volume, m);
      o := world.Take(step, None);
      PlanStops(k, volume, m, Event(step, o, None));
    }

    /** `release` in server.py. */
    method ReleasePort() returns (o: Outcome)
      requires world.Going() && Failing(world.log).Fine?
      modifies this, world
      ensures world.Plan() == old(world.Plan()) && world.Snapshot() == old(world.Snapshot())
      ensures world.Going() && Failing(world.log) == o
      ensures world.Session() == if hadSession && !old(released) then old(world.Session()) + [Event(Release, o, None)]
                                 else old(world.Session())
      ensures released == (old(released) || (hadSession && o.Fine?)) && (o.Raised? ==> hadSession && !old(released))
    {
      hide Only, Failing;
      o := Fine;
      if hadSession && !released {
        o := world.Take(Release, None);
        if o.Fine? {
          released := true;
        }
      }
    }

    /** `before_write` in server.py: an ESP chip behind a shared bridge must be asked for its MAC
        before the charge, which needs the port. */
    method BeforeWrite() returns (o: Outcome)
      requires At(|Plan(volume)| - 4) && !released && world.Session() == []
      modifies this, world
      ensures world.Snapshot() == old(world.Snapshot()) && world.Going() && Failing(world.log) == o
      ensures if o.Fine? then At(|Plan(volume)| - 3) && Free()
              else Held() && FollowsPlan(world.Plan(), volume) && |world.Plan()| <= |Plan(volume)| - 3
    {
      hide Only, Failing, OnPlan, FollowsPlan, PortAt, PortKept, LetGo, Plan, PortPlan, Planned, Touching, Copying;
      PortPlanIs(hadSession, espBehindBridge);
      Belongs();
      Nothing(hadSession, espBehindBridge);
      PlanLength(volume);
      ghost var m := 0;
      if espBehindBridge {
        o := AskChip();
        if o.Raised? {
          return;
        }
        m := if hadSession then 2 else 1;
      }
      ghost var t := world.Session();
      o := Next(Charge, |Plan(volume)| - 4);
      PortGoesOn(t, hadSession, espBehindBridge, m, Event(Charge, o, None));
      LetGoAt(t, hadSession, espBehindBridge, m);
      LetGoNext(t, Event(Charge, o, None));
      if o.Fine? {
        ghost var u := world.Session();
        PlanFollows(world.Plan(), volume, |Plan(volume)| - 3);
        o := ReleasePort();
        if hadSession && !espBehindBridge {
          PortGoesOn(u, true, false, 1, Event(Release, o, None));
          LetGoNext(u, Event(Release, o, None));
        }
      }
    }

    /** Let go of the port and ask the chip; a ToolError means there is no answer. */
    method AskChip() returns (o: Outcome)
      requires At(|Plan(volume)| - 4) && !released && world.Session() == [] && espBehindBridge
      modifies this, world
      ensures world.Snapshot() == old(world.Snapshot()) && world.Going() && Failing(world.log) == o
      ensures if o.Fine? then At(|Plan(volume)| - 4) && (released <==> hadSession)
                              && PortAt(world.Session(), hadSession, true, if hadSession then 2 else 1)
              else Held() && FollowsPlan(world.Plan(), volume) && |world.Plan()| <= |Plan(volume)| - 3
    {
      hide Only, Failing, OnPlan, FollowsPlan, PortAt, PortKept, LetGo, Plan, PortPlan, Planned, Touching, Copying;
      PortPlanIs(hadSession, espBehindBridge);
      Belongs();
      PlanLength(volume);
      PlanFollows(world.Plan(), volume, |Plan(volume)| - 4);
      Nothing(hadSession, true);
      o := ReleasePort();
      if hadSession {
        PortGoesOn([], true, true, 0, Event(Release, o, None));
        LetGoNext([], Event(Release, o, None));
        assert [] + [Event(Release, o, None)] == [Event(Release, o, None)];
      }
      if o.Raised? {
        return;
      }
      ghost var t := world.Session();
      o := world.Take(Probe, None);
      PortGoesOn(t, hadSession, true, if hadSession then 1 else 0, Event(Probe, o, None));
      LetGoNext(t, Event(Probe, o, None));
      o := if o.Raised? && o.exc.Tool? then Fine else o;
    }

    /** The run has stopped before the write: in good order, with nothing started. */
    ghost predicate StoppedEarly()
      reads this, world
    {
      Held() && FollowsPlan(world.Plan(), volume) && |world.Plan()| <= |Plan(volume)| - 2
    }

    /** The write has been tried, with the port free. */
    ghost predicate Written()
      reads this, world
    {
      Held() && (released <==> hadSession) && WroteOnPlan(world.Plan(), volume)
    }

    /** What happens with the verified snapshot in hand; `started` is `started_logged`. */
    method UseSnapshot() returns (o: Outcome, started: bool, rc: int)
      requires At(6) && !released && world.Session() == [] && InHand(world.Snapshot(), false, Keeps())
      modifies this, world
      ensures if started then Written() else o.Raised? && StoppedEarly()
      ensures started && o.Fine? ==> world.Plan()[|Plan(volume)| - 2].outcome.Fine? && rc == Code()
      ensures InHand(world.Snapshot(), started, Keeps()) && world.Going() && Failing(world.log) == o
    {
      hide Only, Failing, OnPlan, FollowsPlan, PortAt, WroteOnPlan, LetGo;
      PlanLength(volume);
      started, rc := false, 0;
      if volume {
        o := Next(PickUf2, 6);
        if o.Raised? {
          Nothing(hadSession, espBehindBridge);
          return;
        }
      }
      o := BeforeWrite();
      if o.Raised? {
        return;
      }
      FreeIsHeld(world.Session(), hadSession, espBehindBridge);
      o := Next(LogStarted, |Plan(volume)| - 3);
      if o.Raised? {
        o := if o.exc.Os? then Raised(Tool(AUDIT_LOG_FAILED)) else o;
        return;
      }
      started := true;
      o, rc := WriteBoard();
    }

    /** The write itself, and keeping its ELF. */
    method WriteBoard() returns (o: Outcome, rc: int)
      requires At(|Plan(volume)| - 2) && Free() && InHand(world.Snapshot(), false, Keeps())
      modifies world
      ensures Written() && InHand(world.Snapshot(), true, Keeps()) && world.Going() && Failing(world.log) == o
      ensures o.Fine? ==> world.Plan()[|Plan(volume)| - 2].outcome.Fine? && rc == Code()
    {
      hide Only, OnPlan, WroteOnPlan, Failing, PortAt, PortKept, LetGo, Plan, InHand, PortPlan, Planned, Touching, Copying;
      PortPlanIs(hadSession, espBehindBridge);
      Belongs();
      PlanLength(volume);
      ghost var (k, t, s) := (world.Plan(), world.Session(), world.Snapshot());
      ghost var m := |PortPlan(hadSession, espBehindBridge)| - 1;
      OnPlanLength(k, volume, |Plan(volume)| - 2);
      rc := 0;
      o := world.Take(Write, None);
      WrittenInHand(s, Event(Write, o, None), Keeps());
      WriteTaken(k, volume, Event(Write, o, None));
      PortGoesOn(t, hadSession, espBehindBridge, m, Event(Write, o, None));
      LetGoAt(t, hadSession, espBehindBridge, m);
      LetGoNext(t, Event(Write, o, None));
      if o.Fine? {
        rc := Code();
        o := KeepFlashedElf(s, Event(Write, o, None));
      }
    }

    /** `_keep_flashed_elf`: after a write that worked, if the ELF is to be kept; that it cannot be is no failure. */
    method KeepFlashedElf(ghost s: Log, ghost write: Event) returns (o: Outcome)
      requires world.Going() && Failing(world.log).Fine? && Did(write, Write)
      requires InHand(s, false, Keeps()) && world.Snapshot() == s + [write]
      modifies world
      ensures world.Plan() == old(world.Plan()) && world.Session() == old(world.Session())
      ensures InHand(world.Snapshot(), true, Keeps()) && world.Going() && Failing(world.log) == o
    {
      hide Only, Failing, InHand, Plan;
      WrittenInHand(s, write, Keeps());
      o := Fine;
      if Code() == 0 && keepsElf {
        o := world.Take(KeepElf, None);
        KeptInHand(s, write, Event(KeepElf, o, None), Keeps());
        o := if o.Raised? && o.exc.Os? then Fine else o;
      }
    }

    /** Copy the artifact, compare its digest, and use the copy. */
    method CopyAndUse() returns (o: Outcome, started: bool, rc: int)
      requires At(4) && !released && world.Session() == [] && world.Snapshot() == []
      modifies this, world
      ensures if started then Written() else o.Raised? && StoppedEarly()
      ensures started && o.Fine? ==> world.Plan()[|Plan(volume)| - 2].outcome.Fine? && rc == Code()
      ensures InHand(world.Snapshot(), started, Keeps()) && world.Going() && Failing(world.log) == o
    {
      Nothing(hadSession, espBehindBridge);
      hide Only, FollowsPlan, OnPlan, PortKept, LetGo, Failing, WroteOnPlan;
      started, rc := false, 0;
      o := Next(CopyArtifact, 4);
      if o.Fine? {
        o := Next(MatchDigest, 5);
        if o.Fine? {
          o, started, rc := UseSnapshot();
        }
      } else if o.exc.Os? {
        o := Raised(Tool(ARTIFACT_INVALID));
      }
    }

    /** `_artifact_snapshot` around it: the copy is removed whatever happened inside. */
    method WithSnapshot() returns (o: Outcome, started: bool, rc: int)
      requires At(4) && !released && world.Session() == [] && world.Snapshot() == []
      modifies this, world
      ensures if started then Written() else o.Raised? && StoppedEarly()
      ensures started && o.Fine? ==> world.Plan()[|Plan(volume)| - 2].outcome.Fine? && rc == Code()
      ensures GoneAgain(world.Snapshot(), started, Keeps()) && world.Going() && Failing(world.log) == o
    {
      hide Only, FollowsPlan, OnPlan, InHand, PortKept, LetGo, WroteOnPlan, Failing;
      o, started, rc := CopyAndUse();
      ghost var hand := world.Snapshot();
      var cleaned := world.Take(CleanUp, None);
      assert world.Snapshot()[..|hand|] == hand;
      o := if cleaned.Raised? then cleaned else o;
    }

    /** `audit.note`, and what an unwritable log makes of it. */
    method NoteFinished(error: Option<string>) returns (o: Outcome, ghost finish: Event)
      requires world.Going() && Written()
      modifies world
      ensures Held() && world.Session() == old(world.Session()) && world.Snapshot() == old(world.Snapshot()) + [finish]
      ensures world.Going() && Failing(world.log) == if o.Raised? then o else old(Failing(world.log))
      ensures FollowsPlan(world.Plan(), volume) && world.Plan() == old(world.Plan()) + [finish]
      ensures finish.step == LogFinished && finish.error == error
      ensures finish.outcome.Fine? <==> o.Fine?
    {
      hide Only, Failing, PortKept, LetGo;
      ghost var (k, n) := (world.Plan(), |Plan(volume)|);
      o := world.Take(LogFinished, error);
      finish := Event(LogFinished, o, error);
      assert k == k[..n - 2] + [k[n - 2]];
      PlanEnds(k[..n - 2], volume, k[n - 2], finish);
      o := if o.Raised? && o.exc.Os? then Raised(Tool(AUDIT_LOG_FAILED)) else o;
    }

    /** Everything checked before a snapshot is taken. */
    method Check() returns (o: Outcome)
      requires At(0)
      modifies world
      ensures world.Session() == old(world.Session()) && world.Snapshot() == old(world.Snapshot())
      ensures world.Going() && Concluding(o)
      ensures if o.Fine? then At(4) else FollowsPlan(world.Plan(), volume) && |world.Plan()| <= 4
    {
      hide Only, Failing;
      o := Next(ResolveSketch, 0);
      if o.Raised? {
        return;
      }
      o := Next(CheckFqbn, 1);
      if o.Raised? {
        return;
      }
      o := CheckArtifact();
    }

    /** What the log says of this outcome, an artifact that was not named included. */
    ghost predicate Concluding(o: Outcome)
      reads world
    {
      if Failing(world.log).Fine? && !artifactNamed then o == Raised(Tool("ARTIFACT_INVALID"))
      else o == Failing(world.log)
    }

    method CheckArtifact() returns (o: Outcome)
      requires At(2)
      modifies world
      ensures world.Session() == old(world.Session()) && world.Snapshot() == old(world.Snapshot())
      ensures world.Going() && Concluding(o)
      ensures if o.Fine? then At(4) else FollowsPlan(world.Plan(), volume) && |world.Plan()| <= 4
    {
      hide Only, Failing;
      if !artifactNamed {
        return Raised(Tool(ARTIFACT_INVALID));
      }
      o := Next(ResolveArtifact, 2);
      if o.Raised? {
        return;
      }
      o := Next(VerifyToken, 3);
    }

    /** flash.upload_sketch. */
    method Flash() returns (r: Flashed)
      requires world.log == [] && !released
      modifies this, world
      ensures Held() && FollowsPlan(world.Plan(), volume)
      ensures Told(world.Plan(), volume, r) && Concluded(world.log, artifactNamed, Code() == 0, r)
      ensures SnapshotRemoved(world.Snapshot(), Keeps()) && world.Going()
    {
      hide Only, FollowsPlan, OnPlan, GoneAgain, PortKept, PortAt, LetGo, Failing, WroteOnPlan, SnapshotRemoved;
      FreshRun(volume);
      NothingCopied(Keeps());
      Nothing(hadSession, espBehindBridge);
      var o := Check();
      if o.Raised? {
        return Failed(o.exc);
      }
      assert artifactNamed;
      var started, rc;
      o, started, rc := WithSnapshot();
      if !started {
        CopiedAndGone(world.Snapshot(), Keeps());
        return Failed(o.exc);
      }
      r := Finish(o, rc);
    }

    /** Close the record of an upload that was started, and say how it went. */
    method Finish(o: Outcome, rc: int) returns (r: Flashed)
      requires world.Going() && Written() && GoneAgain(world.Snapshot(), true, Keeps()) && artifactNamed
      requires Failing(world.log) == o && (o.Fine? ==> world.Plan()[|Plan(volume)| - 2].outcome.Fine? && rc == Code())
      modifies world
      ensures Held() && FollowsPlan(world.Plan(), volume)
      ensures Told(world.Plan(), volume, r) && Concluded(world.log, artifactNamed, Code() == 0, r)
      ensures SnapshotRemoved(world.Snapshot(), Keeps()) && world.Going()
    {
      hide Only, FollowsPlan, OnPlan, GoneAgain, PortKept, LetGo, Failing;
      ghost var gone := world.Snapshot();
      var noted;
      ghost var finish;
      noted, finish := NoteFinished(if o.Raised? then Some(Name(o.exc)) else None);
      NotedAfterRemoval(gone, finish, Keeps());
      r := if noted.Raised? then Failed(noted.exc) else if o.Raised? then Failed(o.exc) else Done(rc == 0);
    }

    /** server.upload_sketch, from the moment it can release the port. A session that was let go is
        opened again exactly once, whatever happened; the caller learns how that went unless an
        exception other than a ToolError escapes. */
    method Run() returns (r: Reply, flashed: Flashed)
      requires world.log == [] && !released
      modifies this, world
      ensures FollowsPlan(world.Plan(), volume) && Told(world.Plan(), volume, flashed)
      ensures world.Answered() && Concluded(world.log, artifactNamed, Code() == 0, flashed)
      ensures SnapshotRemoved(world.Snapshot(), Keeps())
      ensures SessionKept(world.Session(), hadSession, espBehindBridge) && (released <==> LetGo(world.Session()))
      ensures r.Reply? ==> (r.ok <==> flashed == Done(true))
      ensures !released ==> (r.Reply? ==> r.session == Untouched)
      ensures !released && flashed.Failed? ==> r == Escaped(flashed.exc)
      ensures released ==> Reported(world.Session(), world.log, r, flashed)
      ensures if flashed == Done(true) && !(released && Foreign(world.Session()[|world.Session()| - 1].outcome)) then
                JournaledLast(world.log) && (JournalBroke(world.log) ==> r == Escaped(world.log[|world.log| - 1].outcome.exc))
              else Unjournaled(world.log)
    {
      hide Only, FollowsPlan, SnapshotRemoved, SessionKept, PortKept, Told, Failing, LetGo;
      flashed := Flash();
      var session, reopen := Reopened();
      if reopen.Raised? && !reopen.exc.Tool? {
        return Escaped(reopen.exc), flashed;
      }
      if flashed.Failed? {
        return if flashed.exc.Tool? && released then Reply(false, session) else Escaped(flashed.exc), flashed;
      }
      if flashed.ok {
        var journal := JournalUpload();
        if journal.Raised? {
          return Escaped(journal.exc), flashed;
        }
      }
      return Reply(flashed.ok, session), flashed;
    }

    /** `_journal_upload` catches what it expects to fail. */
    method JournalUpload() returns (o: Outcome)
      requires world.Going()
      modifies world
      ensures world.Plan() == old(world.Plan()) && world.Session() == old(world.Session())
      ensures world.Snapshot() == old(world.Snapshot()) && world.Answered() && Failing(world.log) == old(Failing(world.log))
      ensures world.log != [] && world.log[..|world.log| - 1] == old(world.log) && world.log[|world.log| - 1].step == Journal
      ensures JournalBroke(world.log) <==> o.Raised?
      ensures o.Raised? ==> world.log[|world.log| - 1].outcome == o
    {
      hide Failing;
      o := world.Take(Journal, None);
      o := if o.Raised? && !o.exc.Other? then Fine else o;
    }

    /** The `finally` of server.upload_sketch. */
    method Reopened() returns (session: Session, reopen: Outcome)
      requires world.Going() && Held()
      modifies world
      ensures world.Plan() == old(world.Plan()) && world.Snapshot() == old(world.Snapshot())
      ensures world.Going() && Failing(world.log) == old(Failing(world.log))
      ensures SessionKept(world.Session(), hadSession, espBehindBridge) && (released <==> LetGo(world.Session()))
      ensures !released ==> session == Untouched && reopen.Fine?
      ensures released ==> world.log != [] && world.log[|world.log| - 1].step == Reopen
      ensures released ==> world.Session() != [] && world.Session()[|world.Session()| - 1].outcome == reopen
      ensures released && reopen.Fine? ==> session == Restored
      ensures released && reopen.Raised? && reopen.exc.Tool? ==> session == NotRestored(reopen.exc.code)
    {
      hide Failing, PortKept, LetGo, Only;
      session, reopen := Untouched, Fine;
      if released {
        ghost var t := world.Session();
        reopen := world.Take(Reopen, None);
        LetGoNext(t, Event(Reopen, reopen, None));
        assert (t + [Event(Reopen, reopen, None)])[..|t|] == t;
        session := if reopen.Fine? then Restored
                   else if reopen.exc.Tool? then NotRestored(reopen.exc.code)
                   else Untouched;
      }
    }
  }

  // ------------------------------------------------------------------ what the two orders mean

  /** Where event j of a projection stands in the log. */
  function Place(log: Log, keep: Step -> bool, j: nat): (i: nat)
    requires j < |Only(log, keep)|
    ensures i < |log| && keep(log[i].step) && log[i] == Only(log, keep)[j]
  {
    var (init, n) := (log[..|log| - 1], |log| - 1);
    if j < |Only(init, keep)| then Place(init, keep, j) else n
  }

  lemma {:induction false} PlacesInOrder(log: Log, keep: Step -> bool, j: nat, l: nat)
    requires j < l < |Only(log, keep)|
    ensures Place(log, keep, j) < Place(log, keep, l)
  {
    var init := log[..|log| - 1];
    if l < |Only(init, keep)| { PlacesInOrder(init, keep, j, l); }
  }

  lemma {:induction false} EveryPlaceIsFound(log: Log, keep: Step -> bool, i: nat) returns (j: nat)
    requires i < |log| && keep(log[i].step)
    ensures j < |Only(log, keep)| && Place(log, keep, j) == i
  {
    if i == |log| - 1 {
      j := |Only(log[..i], keep)|;
    } else {
      j := EveryPlaceIsFound(log[..|log| - 1], keep, i);
    }
  }

  /** Where the j-th planned step stands, and that it succeeded. */
  lemma {:induction false} PlanPlace(log: Log, volume: bool, j: nat) returns (i: nat)
    requires FollowsPlan(Only(log, Planned()), volume) && j < |Only(log, Planned())|
    ensures i == Place(log, Planned(), j) && i < |log| && log[i].step == Plan(volume)[j]
    ensures j < |Only(log, Planned())| - 1 && log[i].step != Write ==> log[i].outcome.Fine?
  {
    i := Place(log, Planned(), j);
  }

  lemma {:induction false} WriteIsTenth(log: Log, volume: bool, i: nat)
    requires FollowsPlan(Only(log, Planned()), volume) && i < |log| && log[i].step == Write
    ensures |Only(log, Planned())| == |Plan(volume)| && Place(log, Planned(), |Plan(volume)| - 2) == i
  {
    var j := EveryPlaceIsFound(log, Planned(), i);
  }

  lemma {:induction false} GuardsInPlan(volume: bool)
    ensures var (plan, n) := (Plan(volume), |Plan(volume)|);
            n >= 10 && plan[3] == VerifyToken && plan[5] == MatchDigest && plan[n - 4] == Charge && plan[n - 3] == LogStarted
  {
  }

  /** Whatever step fails, a board is written only after the token was verified, the snapshot matched
      its digest, the budget admitted the upload and the start was recorded, in that order. */
  lemma {:induction false} WritesAreGuarded(log: Log, volume: bool, i: nat) returns (a: nat, b: nat, c: nat, d: nat)
    requires FollowsPlan(Only(log, Planned()), volume) && i < |log| && log[i].step == Write
    ensures a < b < c < d < i
    ensures Did(log[a], VerifyToken) && Did(log[b], MatchDigest) && Did(log[c], Charge) && Did(log[d], LogStarted)
  {
    hide FollowsPlan, Only, Planned, Place;
    var (keep, n) := (Planned(), |Plan(volume)|);
    WriteIsTenth(log, volume, i);
    GuardsInPlan(volume);
    PlacesInOrder(log, keep, 3, 5);
    PlacesInOrder(log, keep, 5, n - 4);
    PlacesInOrder(log, keep, n - 4, n - 3);
    PlacesInOrder(log, keep, n - 3, n - 2);
    a := PlanPlace(log, volume, 3);
    b := PlanPlace(log, volume, 5);
    c := PlanPlace(log, volume, n - 4);
    d := PlanPlace(log, volume, n - 3);
  }

  /** Every upload_started is followed by exactly one attempt at upload_finished; with a writable
      log, then, by exactly one such record. */
  lemma {:induction false} StartedIsFinishedOnce(log: Log, volume: bool, i: nat)
    requires FollowsPlan(Only(log, Planned()), volume) && i < |log| && Did(log[i], LogStarted)
    ensures exists f: nat :: i < f < |log| && log[f].step == LogFinished
                             && forall g: nat :: g < |log| && log[g].step == LogFinished ==> g == f
  {
    hide Only, Plan, FollowsPlan, Place;
    var (keep, n) := (Planned(), |Plan(volume)|);
    var j := EveryPlaceIsFound(log, keep, i);
    StartGoesToTheEnd(Only(log, keep), volume, j);
    PlacesInOrder(log, keep, n - 3, n - 1);
    var f := Place(log, keep, n - 1);
    forall g: nat | g < |log| && log[g].step == LogFinished ensures g == f {
      var l := EveryPlaceIsFound(log, keep, g);
    }
  }

  /** Once the start is recorded the plan runs to its end. */
  lemma {:induction false} StartGoesToTheEnd(k: Log, volume: bool, j: nat)
    requires FollowsPlan(k, volume) && j < |k| && Did(k[j], LogStarted)
    ensures var n := |Plan(volume)|;
            3 <= n == |k| && j == n - 3 && forall l: nat :: l < n && k[l].step == LogFinished <==> l == n - 1
  {
    hide Plan;
    var n := |Plan(volume)|;
    PlanPositions(volume, j);
    assert |k| == n;
    forall l: nat | l < n ensures k[l].step == LogFinished <==> l == n - 1 { PlanPositions(volume, l); }
  }

  /** Each of the last steps has one place in the plan. */
  lemma {:induction false} PlanPositions(volume: bool, j: nat)
    requires j < |Plan(volume)|
    ensures var (n, step) := (|Plan(volume)|, Plan(volume)[j]);
            (step == Charge <==> j == n - 4) && (step == LogStarted <==> j == n - 3) && (step == LogFinished <==> j == n - 1)
            && (step in {ResolveSketch, CheckFqbn, ResolveArtifact, VerifyToken, CopyArtifact, MatchDigest, PickUf2, Charge} <==> j <= n - 4)
  {
  }

  /** A budget is charged at most once, and only after every check has passed: what is refused before
      spends nothing. */
  lemma {:induction false} ChargesComeLast(log: Log, volume: bool, i: nat, g: nat)
    requires FollowsPlan(Only(log, Planned()), volume) && i < |log| && log[i].step == Charge
    requires g < |log| && log[g].step in {ResolveSketch, CheckFqbn, ResolveArtifact, VerifyToken, CopyArtifact, MatchDigest, PickUf2, Charge}
    ensures g <= i && (g < i ==> log[g].outcome.Fine?) && (log[g].step == Charge ==> g == i)
  {
    var (keep, n) := (Planned(), |Plan(volume)|);
    var j := EveryPlaceIsFound(log, keep, i);
    var l := EveryPlaceIsFound(log, keep, g);
    PlanPositions(volume, j);
    PlanPositions(volume, l);
    if l < j { PlacesInOrder(log, keep, l, j); }
  }

  /** Where a step around the port stands among those steps, and what came before it. */
  lemma {:induction false} PortPosition(t: Log, had: bool, asks: bool, j: nat)
    requires SessionKept(t, had, asks) && j < |t|
    ensures Is(t[j], Reopen) ==> LetGo(t) && j == |t| - 1
    ensures LetGo(t) ==> Is(t[|t| - 1], Reopen)
    ensures !Is(t[j], Reopen) ==> var plan := PortPlan(had, asks);
              j < |plan| && t[j].step == plan[j] && forall i :: 0 <= i < j ==> t[i].step == plan[i] && Passed(t[i])
  {
    var k := if LetGo(t) then t[..|t| - 1] else t;
    if j < |k| {
      assert k[j] == t[j];
      forall i | 0 <= i < j ensures t[i].step == PortPlan(had, asks)[i] && Passed(t[i]) {
        assert t[i] == k[..|k| - 1][i];
      }
    }
  }

  /** The release, too, if it went well. */
  lemma {:induction false} ReleasePosition(t: Log, had: bool, asks: bool) returns (j: nat)
    requires SessionKept(t, had, asks) && LetGo(t)
    ensures j < |t| && Did(t[j], Release) && had && j == if asks then 0 else 1
    ensures !asks ==> t != [] && Did(t[0], Charge)
  {
    j :| j < |t| && Did(t[j], Release);
    PortPosition(t, had, asks, j);
  }

  /** A session this server held is let go before the board is written and taken again afterwards. */
  lemma {:induction false} WriteHoldsNoSession(log: Log, asks: bool, i: nat)
    requires SessionKept(Only(log, Touching()), true, asks) && i < |log| && log[i].step == Write
    ensures exists r: nat, o: nat :: r < i < o < |log| && Did(log[r], Release) && log[o].step == Reopen
  {
    hide SessionKept, Only, LetGo;
    var (keep, t) := (Touching(), Only(log, Touching()));
    var j := EveryPlaceIsFound(log, keep, i);
    PortPosition(t, true, asks, j);
    var k := if asks then 0 else 1;
    assert Did(t[k], Release);
    LetGoHas(t, k);
    PortPosition(t, true, asks, |t| - 1);
    PlacesInOrder(log, keep, k, j);
    PlacesInOrder(log, keep, j, |t| - 1);
    assert Did(log[Place(log, keep, k)], Release) && log[Place(log, keep, |t| - 1)].step == Reopen;
  }

  lemma {:induction false} LetGoHas(t: Log, k: nat)
    requires k < |t| && Did(t[k], Release)
    ensures LetGo(t)
  {
  }

  /** Unless the chip must be asked, the port is left alone until the budget has admitted the upload. */
  lemma {:induction false} PortWaitsForTheCharge(log: Log, had: bool, g: nat) returns (c: nat)
    requires SessionKept(Only(log, Touching()), had, false) && g < |log| && log[g].step in {Release, Write, Reopen}
    ensures c < g && Did(log[c], Charge)
  {
    hide Only, SessionKept, LetGo;
    var (keep, t) := (Touching(), Only(log, Touching()));
    var j := EveryPlaceIsFound(log, keep, g);
    PortPosition(t, had, false, j);
    if log[g].step == Reopen { var r := ReleasePosition(t, had, false); }
    assert j > 0 && Did(t[0], Charge);
    PlacesInOrder(log, keep, 0, j);
    c := Place(log, keep, 0);
  }

  /** A chip is asked only if it must be, and with the port free. */
  lemma {:induction false} ProbesAskFreePorts(log: Log, had: bool, asks: bool, p: nat)
    requires SessionKept(Only(log, Touching()), had, asks) && p < |log| && log[p].step == Probe
    ensures asks && (had ==> exists r: nat :: r < p && Did(log[r], Release))
  {
    hide Only, SessionKept, LetGo;
    var (keep, t) := (Touching(), Only(log, Touching()));
    var j := EveryPlaceIsFound(log, keep, p);
    PortPosition(t, had, asks, j);
    if had {
      assert Did(t[0], Release);
      PlacesInOrder(log, keep, 0, j);
      assert Did(log[Place(log, keep, 0)], Release);
    }
  }

  /** And if it must be, it has been asked before anything is charged, whether or not it answered. */
  lemma {:induction false} ChargesAskFirst(log: Log, had: bool, c: nat) returns (p: nat)
    requires SessionKept(Only(log, Touching()), had, true) && c < |log| && log[c].step == Charge
    ensures p < c && Is(log[p], Probe) && !Foreign(log[p].outcome)
  {
    hide Only, SessionKept, LetGo;
    var (keep, t) := (Touching(), Only(log, Touching()));
    var j := EveryPlaceIsFound(log, keep, c);
    PortPosition(t, had, true, j);
    assert Is(t[j - 1], Probe) && Passed(t[j - 1]);
    PlacesInOrder(log, keep, j - 1, j);
    p := Place(log, keep, j - 1);
  }

  /** A refused charge, with no chip to ask, leaves port and session alone; unless something raised after
      it, exactly that refusal comes out. */
  lemma {:induction false} RefusedChargeTouchesNothing(log: Log, had: bool, artifactNamed: bool, worked: bool, flashed: Flashed, c: nat)
    requires SessionKept(Only(log, Touching()), had, false) && Concluded(log, artifactNamed, worked, flashed)
    requires c < |log| && log[c].step == Charge && log[c].outcome.Raised?
    ensures !LetGo(Only(log, Touching()))
    ensures forall g: nat :: g < |log| ==> log[g].step !in {Release, Probe, Write, Reopen}
    ensures (forall g: nat :: c < g < |log| ==> log[g].outcome.Fine?) ==> flashed == Failed(log[c].outcome.exc)
  {
    hide Only, SessionKept, LetGo, Failing;
    var (keep, t) := (Touching(), Only(log, Touching()));
    var l := EveryPlaceIsFound(log, keep, c);
    PortPosition(t, had, false, l);
    assert l == 0;
    if LetGo(t) { var r := ReleasePosition(t, had, false); }
    forall g: nat | g < |log| ensures log[g].step !in {Release, Probe, Write, Reopen} {
      if log[g].step in {Release, Probe, Write, Reopen} {
        var j := EveryPlaceIsFound(log, keep, g);
        PortPosition(t, had, false, j);
      }
    }
    if forall g: nat :: c < g < |log| ==> log[g].outcome.Fine? { FailingIs(log, c); }
  }

  lemma {:induction false} FailingIs(log: Log, c: nat)
    requires c < |log| && Shown(log[c].step, log[c].outcome).Raised? && forall g: nat :: c < g < |log| ==> log[g].outcome.Fine?
    ensures Failing(log) == Shown(log[c].step, log[c].outcome)
  {
    if c < |log| - 1 { FailingIs(log[..|log| - 1], c); }
  }

  /** A copy that was tried is removed exactly once, and whatever is written or kept from it is
      written or kept before that. */
  lemma {:induction false} CopyIsRemovedOnce(log: Log, keeps: bool, i: nat)
    requires SnapshotRemoved(Only(log, Copying()), keeps) && i < |log| && log[i].step in {CopyArtifact, Write, KeepElf}
    ensures exists c: nat :: i < c < |log| && log[c].step == CleanUp
                             && forall g: nat :: g < |log| && log[g].step == CleanUp ==> g == c
  {
    var keep := Copying();
    var j := EveryPlaceIsFound(log, keep, i);
    var m := RemovalPosition(Only(log, keep), keeps, j);
    var c := Place(log, keep, m);
    PlacesInOrder(log, keep, j, m);
    forall g: nat | g < |log| && log[g].step == CleanUp ensures g == c {
      var l := EveryPlaceIsFound(log, keep, g);
    }
  }

  lemma {:induction false} RemovalPosition(s: Log, keeps: bool, j: nat) returns (m: nat)
    requires SnapshotRemoved(s, keeps) && j < |s| && s[j].step in {CopyArtifact, Write, KeepElf}
    ensures j < m < |s| && forall l :: 0 <= l < |s| ==> (s[l].step == CleanUp <==> l == m)
  {
    if GoneAgain(s, false, keeps) {
      m := 1;
    } else {
      m := |s| - 2;
    }
  }

  /** The oracle under which nothing fails but the journal, and that in a way it does not expect. */
  function OnlyTheJournal(name: string): Oracle {
    (step, i) => if step == Journal then Raised(Other(name)) else Fine
  }

  /** Everything worked and the session was reopened, yet the caller is never told its new id: the
      journal's exception takes the reply's place. */
  method JournalDropsTheSession(name: string, volume: bool, espBehindBridge: bool, keepsElf: bool)
    returns (world: World, r: Reply, flashed: Flashed)
    ensures flashed == Done(true) && r == Escaped(Other(name))
    ensures world.Session() != [] && Did(world.Session()[|world.Session()| - 1], Reopen)
    ensures forall e :: e in world.log && e.outcome.Raised? ==> e.step == Journal
  {
    hide FollowsPlan, Only, SessionKept, SnapshotRemoved, Failing, LetGo, PortKept, Plan;
    world := new World(OnlyTheJournal(name));
    var upload := new Upload(world, volume, true, true, espBehindBridge, keepsElf, 0);
    r, flashed := upload.Run();
    NoTrouble(world.log, name);
    WrittenWithoutSession(world.log, volume, espBehindBridge);
    JournalTakesTheReply(world.log, name);
  }

  lemma {:induction false} JournalTakesTheReply(log: Log, name: string)
    requires forall i :: 0 <= i < |log| ==> log[i].outcome == OnlyTheJournal(name)(log[i].step, i)
    ensures var t := Only(log, Touching()); forall j :: 0 <= j < |t| ==> t[j].outcome.Fine?
    ensures forall e :: e in log && e.outcome.Raised? ==> e.step == Journal
  {
    hide Only;
    var t := Only(log, Touching());
    forall j | 0 <= j < |t| ensures t[j].outcome.Fine? { var i := Place(log, Touching(), j); }
  }

  /** A whole plan with a session held: released, written, reopened. */
  lemma {:induction false} WrittenWithoutSession(log: Log, volume: bool, asks: bool)
    requires FollowsPlan(Only(log, Planned()), volume) && |Only(log, Planned())| == |Plan(volume)|
    requires SessionKept(Only(log, Touching()), true, asks)
    ensures var t := Only(log, Touching()); LetGo(t) && t != [] && Is(t[|t| - 1], Reopen)
  {
    hide Only, SessionKept, LetGo;
    var t := Only(log, Touching());
    PlanLength(volume);
    var write := PlanPlace(log, volume, |Plan(volume)| - 2);
    assert log[write].step == Write;
    var j := EveryPlaceIsFound(log, Touching(), write);
    PortPosition(t, true, asks, j);
    LetGoHas(t, if asks then 0 else 1);
    PortPosition(t, true, asks, |t| - 1);
  }

  lemma {:induction false} NoTrouble(log: Log, name: string)
    requires forall i :: 0 <= i < |log| ==> log[i].outcome == OnlyTheJournal(name)(log[i].step, i)
    ensures Failing(log).Fine?
  {
    if log != [] { NoTrouble(log[..|log| - 1], name); }
  }
}
