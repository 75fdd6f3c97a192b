/**
 * The provider manager: one run loop, any number of Enable and Disable callers, and the runner they
 * start and cancel. Each section under the lock, each channel operation, each cancel and each store
 * write is one atomic step; a run of the system is any sequence of steps.
 */
module Manager {
  import opened Bytes
  import Fleet

  type RunId = nat
  type CallerId = nat

  // ----- The state under the lock -----

  datatype Phase = Starting | Running | Retrying | Stopping | Disabled | Stopped

  datatype Status = Status(enabled: bool, running: bool, phase: Phase)

  /** Status and the cancel function of the current run, both guarded by the mutex. */
  datatype Shared = Shared(status: Status, runCancel: Option<RunId>)

  function EnableSection(sh: Shared): Shared {
    if sh.status.enabled then sh else sh.(status := Status(true, false, Starting))
  }

  function DisableSection(sh: Shared): Shared {
    if !sh.status.enabled then sh
    else sh.(status := Status(false, false, if sh.status.running then Stopping else Disabled))
  }

  /** The cancel function a Disable call takes with it when it leaves the lock. */
  function TakenCancel(sh: Shared): Option<RunId> {
    if sh.status.running then sh.runCancel else None
  }

  predicate MayBegin(sh: Shared, ctxDone: bool) {
    sh.status.enabled && !ctxDone
  }

  function BeginSection(sh: Shared, run: RunId, ctxDone: bool): Shared {
    if MayBegin(sh, ctxDone) then Shared(sh.status.(running := true, phase := Running), Some(run)) else sh
  }

  function EndSection(sh: Shared): Shared {
    Shared(sh.status.(running := false), None)
  }

  function RetrySection(sh: Shared): Shared {
    sh.(status := sh.status.(running := false, phase := if sh.status.enabled then Retrying else Disabled))
  }

  function StopSection(sh: Shared): Shared {
    Shared(sh.status.(running := false, phase := Stopped), None)
  }

  /** The object whose methods are the sections; wakeCh holds at most one token. */
  class ProviderManager {
    var status: Status
    var runCancel: Option<RunId>
    var wake: bool

    ghost function Abs(): Shared
      reads this
    {
      Shared(status, runCancel)
    }

    constructor ()
      ensures Abs() == Shared(Status(true, false, Starting), None) && !wake
    {
      status := Status(true, false, Starting);
      runCancel := None;
      wake := false;
    }

    method Enable() returns (signal: bool)
      modifies this`status
      ensures Abs() == EnableSection(old(Abs()))
      ensures status == if old(status).enabled then old(status) else Status(true, false, Starting)
      ensures signal <==> !old(status).enabled
    {
      if status.enabled {
        return false;
      }
      status := status.(enabled := true);
      status := status.(running := false);
      status := status.(phase := Starting);
      return true;
    }

    method Disable() returns (signal: bool, cancel: Option<RunId>)
      modifies this`status
      ensures Abs() == DisableSection(old(Abs()))
      ensures status == if !old(status).enabled then old(status)
                        else Status(false, false, if old(status).running then Stopping else Disabled)
      ensures signal <==> old(status).enabled
      ensures signal ==> cancel == if old(status).running then runCancel else None
      ensures signal ==> cancel == TakenCancel(old(Abs()))
    {
      cancel := None;
      if !status.enabled {
        return false, cancel;
      }
      status := status.(enabled := false);
      if status.running {
        status := status.(phase := Stopping);
        cancel := runCancel;
      } else {
        status := status.(phase := Disabled);
      }
      status := status.(running := false);
      return true, cancel;
    }

    method BeginRun(run: RunId, ctxDone: bool) returns (started: bool)
      modifies this`status, this`runCancel
      ensures Abs() == BeginSection(old(Abs()), run, ctxDone)
      ensures started <==> MayBegin(old(Abs()), ctxDone)
      ensures started <==> old(status).enabled && !ctxDone
      ensures started ==> status == Status(true, true, Running) && runCancel == Some(run)
      ensures !started ==> status == old(status) && runCancel == old(runCancel)
    {
      if !status.enabled || ctxDone {
        return false;
      }
      runCancel := Some(run);
      status := status.(running := true);
      status := status.(phase := Running);
      return true;
    }

    method EndRun()
      modifies this`status, this`runCancel
      ensures Abs() == EndSection(old(Abs()))
      ensures status == old(status).(running := false) && runCancel == None
    {
      runCancel := None;
      status := status.(running := false);
    }

    method SetRetrying() returns (enabled: bool)
      modifies this`status
      ensures Abs() == RetrySection(old(Abs()))
      ensures status == Status(old(status).enabled, false, if old(status).enabled then Retrying else Disabled)
      ensures enabled == old(status).enabled
    {
      status := status.(running := false);
      if !status.enabled {
        status := status.(phase := Disabled);
      } else {
        status := status.(phase := Retrying);
      }
      return status.enabled;
    }

    method SetStopped()
      modifies this`status, this`runCancel
      ensures Abs() == StopSection(old(Abs()))
      ensures status == Status(old(status).enabled, false, Stopped) && runCancel == None
    {
      status := status.(running := false);
      status := status.(phase := Stopped);
      runCancel := None;
    }

    method SignalWake()
      modifies this`wake
      ensures wake
    {
      if !wake {
        wake := true;
      }
    }
  }

  /** A wait without a delay lasts until a wake-up; the retry wait always has one, in seconds. */
  function RetryDelay(retryGap: int): (delay: int)
    ensures delay > 0 && (retryGap > 0 ==> delay == retryGap) && (retryGap <= 0 ==> delay == 5)
  {
    if retryGap <= 0 then 5 else retryGap
  }

  // ----- The whole system -----

  /** Where the run loop stands. */
  datatype Loop =
    | Top | Check | WaitDisabled
    | Begin | InRun(run: RunId) | Ended(run: RunId) | Unwinding(run: RunId)
    | AfterRun | Marking(done: nat) | BeforeRetry | WaitRetry
    | StopNow | Exited

  /** What an unfinished call has left to do. */
  datatype Caller =
    | EnableSignal
    | DisableMark(done: nat, cancel: Option<RunId>)
    | DisableCancel(run: RunId)
    | DisableSignal

  datatype Ups = Wait | Reading

  datatype State = State(
    sh: Shared, wake: bool, ctxDone: bool, loop: Loop, nextRun: RunId,
    live: set<RunId>, fleet: Fleet.State, cancelled: set<RunId>, callers: map<CallerId, Caller>,
    store: map<string, Ups>)

  /** Which of the ready cases a select takes. */
  datatype Choice = SeeDone | TakeToken | SeeTimer

  datatype Step =
    | CancelParent
    | EnableCall(c: CallerId)
    | DisableCall(c: CallerId)
    | CallerGoes(c: CallerId)
    | LoopGoes(choice: Choice)
    | RunnerGoes(step: Fleet.Step, device: nat, ups: Ups)

  function Init(devices: seq<string>): State {
    State(Shared(Status(true, false, Starting), None), false, false, Top, 0, {}, Fleet.NO_RUN, {}, map[],
          map d | d in devices :: Wait)
  }

  function CallerStep(devices: seq<string>, s: State, c: CallerId): State
    requires c in s.callers
  {
    match s.callers[c]
    case EnableSignal => s.(wake := true, callers := s.callers - {c})
    case DisableSignal => s.(wake := true, callers := s.callers - {c})
    case DisableCancel(run) => s.(cancelled := s.cancelled + {run}, callers := s.callers[c := DisableSignal])
    case DisableMark(done, cancel) =>
      if done < |devices| then
        s.(store := s.store[devices[done] := Wait], callers := s.callers[c := DisableMark(done + 1, cancel)])
      else s.(callers := s.callers[c := if cancel.Some? then DisableCancel(cancel.value) else DisableSignal])
  }

  /** A wait: the parent context, the token, and for the retry wait the timer. */
  function WaitStep(s: State, timed: bool, choice: Choice): State {
    match choice
    case SeeDone => if s.ctxDone then s.(loop := StopNow) else s
    case TakeToken => if s.wake then s.(wake := false, loop := Top) else s
    case SeeTimer => if timed then s.(loop := Top) else s
  }

  function LoopStep(devices: seq<string>, s: State, choice: Choice): State {
    match s.loop
    case Top => s.(loop := if s.ctxDone then StopNow else Check)
    case Check => s.(loop := if s.sh.status.enabled then Begin else WaitDisabled)
    case WaitDisabled => WaitStep(s, false, choice)
    case Begin =>
      if MayBegin(s.sh, s.ctxDone) then
        s.(sh := BeginSection(s.sh, s.nextRun, s.ctxDone), loop := InRun(s.nextRun),
           live := s.live + {s.nextRun}, fleet := Fleet.Begun(|devices|), nextRun := s.nextRun + 1)
      else s.(loop := AfterRun)
    case InRun(run) => if run in s.live then s else s.(loop := Ended(run))
    case Ended(run) => s.(sh := EndSection(s.sh), loop := Unwinding(run))
    case Unwinding(run) => s.(cancelled := s.cancelled + {run}, loop := AfterRun)
    case AfterRun => s.(loop := if s.ctxDone then StopNow else Marking(0))
    case Marking(done) =>
      if done < |devices| then s.(store := s.store[devices[done] := Wait], loop := Marking(done + 1))
      else s.(loop := BeforeRetry)
    case BeforeRetry => s.(sh := RetrySection(s.sh), loop := if s.sh.status.enabled then WaitRetry else Top)
    case WaitRetry => WaitStep(s, true, choice)
    case StopNow => s.(sh := StopSection(s.sh), loop := Exited)
    case Exited => s
  }

  /** One step; a step that is not possible changes nothing. */
  function Apply(devices: seq<string>, s: State, step: Step): State {
    match step
    case CancelParent => s.(ctxDone := true)
    case EnableCall(c) =>
      if c in s.callers || s.sh.status.enabled then s
      else s.(sh := EnableSection(s.sh), callers := s.callers[c := EnableSignal])
    case DisableCall(c) =>
      if c in s.callers || !s.sh.status.enabled then s
      else s.(sh := DisableSection(s.sh), callers := s.callers[c := DisableMark(0, TakenCancel(s.sh))])
    case CallerGoes(c) => if c in s.callers then CallerStep(devices, s, c) else s
    case LoopGoes(choice) => LoopStep(devices, s, choice)
    case RunnerGoes(action, device, ups) => RunnerStep(devices, s, action, device, ups)
  }

  /**
   * One step of the goroutines of the last run that was started. They go on by themselves: a write needs
   * only a goroutine that makes it, and the run is live until its own main goroutine has returned.
   */
  function RunnerStep(devices: seq<string>, s: State, action: Fleet.Step, device: nat, ups: Ups): State {
    var fleet := Fleet.Apply(s.fleet, RunContextDone(s), action);
    var target := if action.Writes? then action.i else device;
    s.(fleet := fleet,
       live := if fleet.main.Returned? then {} else s.live,
       store := if Fleet.MayWrite(s.fleet, action) && target < |devices| then s.store[devices[target] := ups]
                else s.store)
  }

  predicate RunContextDone(s: State) {
    s.ctxDone || (s.loop.InRun? && s.loop.run in s.cancelled)
  }

  /** The state after the first n steps. */
  function Execute(devices: seq<string>, steps: seq<Step>, n: nat): State
    requires n <= |steps|
  {
    if n == 0 then Init(devices) else Apply(devices, Execute(devices, steps, n - 1), steps[n - 1])
  }

  // ----- Invariants -----

  predicate EnabledPhase(l: Phase) {
    l.Starting? || l.Running? || l.Retrying?
  }

  predicate StatusCoherent(st: Status) {
    && (st.running ==> st.enabled && st.phase.Running?)
    && (!st.phase.Stopped? ==> (st.enabled <==> EnabledPhase(st.phase)))
  }

  /** Some unfinished Disable call still holds the run's cancel function. */
  predicate Held(s: State, run: RunId) {
    exists c :: c in s.callers && Holds(s.callers[c], run)
  }

  predicate Holds(k: Caller, run: RunId) {
    match k
    case DisableMark(_, cancel) => cancel == Some(run)
    case DisableCancel(r) => r == run
    case _ => false
  }

  /** The runner, the loop and the recorded cancel function agree. */
  predicate RunShape(s: State) {
    && (s.loop.InRun? ==> s.live <= {s.loop.run})
    && (!s.loop.InRun? ==> s.live == {})
    && (s.loop.InRun? || s.loop.Ended? <==> s.sh.runCancel.Some?)
    && (s.sh.runCancel.Some? ==> s.sh.runCancel == Some(s.loop.run))
    && (s.sh.status.running ==> s.sh.runCancel.Some?)
  }

  /** The goroutines that could still write belong to the live run. */
  predicate FleetFits(s: State) {
    && Fleet.Counted(s.fleet)
    && (s.fleet.main.Returned? <==> s.live == {})
  }

  /** Run numbers not handed out yet are nowhere. */
  ghost predicate Fresh(s: State) {
    && (forall r :: r in s.cancelled ==> r < s.nextRun)
    && (forall c, r: RunId :: c in s.callers && Holds(s.callers[c], r) ==> r < s.nextRun)
    && (s.loop.InRun? || s.loop.Ended? || s.loop.Unwinding? ==> s.loop.run < s.nextRun)
  }

  /** While a run lasts it is reported Running exactly if nobody cancelled it or is about to. */
  predicate CancelExact(s: State) {
    s.sh.runCancel.Some? ==>
      var run := s.sh.runCancel.value;
      s.sh.status.running <==> run !in s.cancelled && !Held(s, run)
  }

  predicate EnablePending(s: State) {
    exists c :: c in s.callers && s.callers[c].EnableSignal?
  }

  predicate DisablePending(s: State) {
    exists c :: c in s.callers && !s.callers[c].EnableSignal?
  }

  predicate WakeKept(s: State) {
    && (s.loop.WaitDisabled? && s.sh.status.enabled ==> s.wake || EnablePending(s))
    && (s.loop.WaitRetry? && !s.sh.status.enabled ==> s.wake || DisablePending(s))
  }

  predicate Between(l: Loop) {
    l.Top? || l.Check? || l.WaitDisabled? || l.Begin? || l.BeforeRetry? || l.WaitRetry?
  }

  /** Outside a run and its aftermath the reported state is one that invites or awaits a start. */
  predicate PhaseFollows(s: State) {
    && (s.loop.Top? || s.loop.Check? || s.loop.WaitDisabled? || s.loop.Begin? || s.loop.WaitRetry? ==>
          s.sh.status.phase in {Starting, Retrying, Disabled})
    && (s.sh.status.phase.Stopped? ==> s.loop.Exited?)
    && (s.loop.InRun? && s.sh.status.running ==> s.sh.status.phase.Running?)
  }

  predicate IdleWaits(devices: seq<string>, s: State) {
    && (forall d :: d in devices ==> d in s.store)
    && (Between(s.loop) ==> forall d :: d in devices ==> s.store[d] == Wait)
    && (s.loop.Marking? ==> forall k :: 0 <= k < s.loop.done && k < |devices| ==> s.store[devices[k]] == Wait)
    && (s.loop.Marking? ==> s.loop.done <= |devices|)
  }

  ghost predicate Inv(devices: seq<string>, s: State) {
    && StatusCoherent(s.sh.status) && RunShape(s) && Fresh(s) && CancelExact(s) && WakeKept(s)
    && PhaseFollows(s) && IdleWaits(devices, s) && FleetFits(s)
  }

  // ----- Every step keeps them -----

  lemma InitInv(devices: seq<string>)
    ensures Inv(devices, Init(devices))
  {}

  // A step of a call that neither gains nor loses a cancel function.
  lemma SameHolders(s: State, t: State)
    requires t.sh == s.sh && t.cancelled == s.cancelled && t.nextRun == s.nextRun && t.loop == s.loop
    requires forall c, r: RunId :: c in t.callers && Holds(t.callers[c], r) ==> c in s.callers && Holds(s.callers[c], r)
    requires forall c, r: RunId :: c in s.callers && Holds(s.callers[c], r) ==> c in t.callers && Holds(t.callers[c], r)
    requires Fresh(s) && CancelExact(s)
    ensures Fresh(t) && CancelExact(t)
  {
    forall r: RunId
      ensures Held(t, r) <==> Held(s, r)
    {
      if Held(s, r) {
        var c :| c in s.callers && Holds(s.callers[c], r);
        assert c in t.callers && Holds(t.callers[c], r);
      }
    }
  }

  lemma CancelInv(devices: seq<string>, s: State, c: CallerId)
    requires Fresh(s) && CancelExact(s) && c in s.callers && s.callers[c].DisableCancel?
    ensures Fresh(CallerStep(devices, s, c)) && CancelExact(CallerStep(devices, s, c))
  {
    var t, run := CallerStep(devices, s, c), s.callers[c].run;
    assert Holds(s.callers[c], run) && Held(s, run);
    forall d, r: RunId | d in t.callers && Holds(t.callers[d], r)
      ensures d != c && d in s.callers && Holds(s.callers[d], r)
    {
      assert d != c;
    }
    forall r: RunId | r != run
      ensures Held(t, r) <==> Held(s, r)
    {
      if Held(s, r) {
        var d :| d in s.callers && Holds(s.callers[d], r);
        assert d != c && d in t.callers && Holds(t.callers[d], r);
      }
    }
  }

  lemma CallerWakeKept(devices: seq<string>, s: State, c: CallerId)
    requires WakeKept(s) && c in s.callers
    ensures WakeKept(CallerStep(devices, s, c))
  {
    var t := CallerStep(devices, s, c);
    if !t.wake && EnablePending(s) {
      var d :| d in s.callers && s.callers[d].EnableSignal?;
      assert d != c && d in t.callers && t.callers[d].EnableSignal?;
    }
    if !t.wake && DisablePending(s) {
      var d :| d in s.callers && !s.callers[d].EnableSignal?;
      assert d in t.callers && !t.callers[d].EnableSignal?;
    }
  }

  lemma CallerInv(devices: seq<string>, s: State, c: CallerId)
    requires Inv(devices, s) && c in s.callers
    ensures Inv(devices, CallerStep(devices, s, c))
  {
    hide StatusCoherent, RunShape, PhaseFollows, FleetFits, WakeKept, CancelExact, Fresh;
    var t := CallerStep(devices, s, c);
    CallerWakeKept(devices, s, c);
    CallerKeeps(s, t);
    if s.callers[c].DisableCancel? {
      CancelInv(devices, s, c);
    } else {
      SameHolders(s, t);
    }
  }

  lemma CallerKeeps(s: State, t: State)
    requires t.sh == s.sh && t.loop == s.loop && t.live == s.live && t.fleet == s.fleet
    requires StatusCoherent(s.sh.status) && RunShape(s) && PhaseFollows(s) && FleetFits(s)
    ensures StatusCoherent(t.sh.status) && RunShape(t) && PhaseFollows(t) && FleetFits(t)
  {
    hide Fleet.Counted;
  }

  lemma EnableInv(devices: seq<string>, s: State, c: CallerId)
    requires Inv(devices, s) && c !in s.callers && !s.sh.status.enabled
    ensures Inv(devices, Apply(devices, s, EnableCall(c)))
  {
    var t := Apply(devices, s, EnableCall(c));
    assert c in t.callers && t.callers[c].EnableSignal?;
    forall r: RunId
      ensures Held(t, r) <==> Held(s, r)
    {
      if Held(s, r) {
        var d :| d in s.callers && Holds(s.callers[d], r);
        assert d in t.callers && Holds(t.callers[d], r);
      }
    }
  }

  lemma DisableInv(devices: seq<string>, s: State, c: CallerId)
    requires Inv(devices, s) && c !in s.callers && s.sh.status.enabled
    ensures Inv(devices, Apply(devices, s, DisableCall(c)))
  {
    var t := Apply(devices, s, DisableCall(c));
    assert c in t.callers && !t.callers[c].EnableSignal?;
    if s.sh.status.running {
      assert Holds(t.callers[c], s.sh.runCancel.value);
    } else {
      forall r: RunId
        ensures Held(t, r) <==> Held(s, r)
      {
        if Held(s, r) {
          var d :| d in s.callers && Holds(s.callers[d], r);
          assert d in t.callers && Holds(t.callers[d], r);
        }
      }
    }
  }

  // A step of the loop that leaves the run, the lock's state and the callers alone.
  lemma LoopOnlyInv(s: State, t: State)
    requires t.sh == s.sh && t.callers == s.callers && t.cancelled == s.cancelled && t.nextRun == s.nextRun
    requires t.live == s.live && !s.loop.InRun? && !t.loop.InRun? && !s.loop.Ended? && !t.loop.Ended?
    requires !t.loop.Unwinding?
    requires StatusCoherent(s.sh.status) && RunShape(s) && Fresh(s) && CancelExact(s)
    ensures StatusCoherent(t.sh.status) && RunShape(t) && Fresh(t) && CancelExact(t)
  {}

  lemma BeginInv(devices: seq<string>, s: State)
    requires Inv(devices, s) && s.loop.Begin? && MayBegin(s.sh, s.ctxDone)
    ensures Inv(devices, LoopStep(devices, s, SeeDone))
  {
    hide IdleWaits, Fleet.Counted;
    var t := LoopStep(devices, s, SeeDone);
    IdleCarried(devices, s, t);
    Fleet.BegunCounted(|devices|);
    assert s.nextRun !in s.cancelled;
    assert !Held(t, s.nextRun);
  }

  lemma IdleCarried(devices: seq<string>, s: State, t: State)
    requires IdleWaits(devices, s) && t.store == s.store
    requires (Between(t.loop) ==> Between(s.loop)) && (t.loop.Marking? ==> t.loop.done == 0)
    ensures IdleWaits(devices, t)
  {}

  // The sections that end a run, and the ones that record what the loop does next.
  lemma RunEndsInv(devices: seq<string>, s: State, choice: Choice)
    requires Inv(devices, s) && (s.loop.InRun? || s.loop.Ended? || s.loop.Unwinding? || s.loop.StopNow?)
    ensures Inv(devices, LoopStep(devices, s, choice))
  {
    hide IdleWaits;
    IdleCarried(devices, s, LoopStep(devices, s, choice));
  }

  lemma QuietInv(devices: seq<string>, s: State, choice: Choice)
    requires Inv(devices, s)
    requires s.loop.Top? || s.loop.Check? || s.loop.WaitDisabled? || s.loop.WaitRetry? || s.loop.AfterRun?
          || (s.loop.Begin? && !MayBegin(s.sh, s.ctxDone))
    ensures Inv(devices, LoopStep(devices, s, choice))
  {
    hide IdleWaits, StatusCoherent, RunShape, Fresh, CancelExact;
    var t := LoopStep(devices, s, choice);
    IdleCarried(devices, s, t);
    if t.loop != s.loop {
      LoopOnlyInv(s, t);
    }
  }

  lemma MarkingInv(devices: seq<string>, s: State, choice: Choice)
    requires Inv(devices, s) && s.loop.Marking?
    ensures Inv(devices, LoopStep(devices, s, choice))
  {
    hide StatusCoherent, RunShape, Fresh, CancelExact, WaitStep, BeginSection, RetrySection, StopSection, EndSection;
    var t := LoopStep(devices, s, choice);
    LoopOnlyInv(s, t);
    if s.loop.done == |devices| {
      forall d | d in devices
        ensures t.store[d] == Wait
      {
        var k :| 0 <= k < |devices| && devices[k] == d;
      }
    }
  }

  lemma RetryInv(devices: seq<string>, s: State, choice: Choice)
    requires Inv(devices, s) && s.loop.BeforeRetry?
    ensures Inv(devices, LoopStep(devices, s, choice))
  {
    hide IdleWaits;
    IdleCarried(devices, s, LoopStep(devices, s, choice));
  }

  lemma LoopInv(devices: seq<string>, s: State, choice: Choice)
    requires Inv(devices, s)
    ensures Inv(devices, LoopStep(devices, s, choice))
  {
    hide Inv, LoopStep;
    match s.loop
    case Begin =>
      if MayBegin(s.sh, s.ctxDone) {
        BeginInv(devices, s);
        BeginIgnoresChoice(devices, s, choice);
      } else {
        QuietInv(devices, s, choice);
      }
    case InRun(_) => RunEndsInv(devices, s, choice);
    case Ended(_) => RunEndsInv(devices, s, choice);
    case Unwinding(_) => RunEndsInv(devices, s, choice);
    case StopNow => RunEndsInv(devices, s, choice);
    case Marking(_) => MarkingInv(devices, s, choice);
    case BeforeRetry => RetryInv(devices, s, choice);
    case Exited => ExitedStays(devices, s, choice);
    case _ => QuietInv(devices, s, choice);
  }

  lemma BeginIgnoresChoice(devices: seq<string>, s: State, choice: Choice)
    requires s.loop.Begin? || s.loop.Exited?
    ensures LoopStep(devices, s, choice) == LoopStep(devices, s, SeeDone)
  {}

  lemma ExitedStays(devices: seq<string>, s: State, choice: Choice)
    requires s.loop.Exited?
    ensures LoopStep(devices, s, choice) == s
  {}

  lemma OutsideInv(devices: seq<string>, s: State, step: Step)
    requires Inv(devices, s)
    requires step.CancelParent? || step.RunnerGoes?
    ensures Inv(devices, Apply(devices, s, step))
  {
    hide Fleet.Counted, Fleet.Apply, Fleet.MayWrite, RunContextDone;
    if step.RunnerGoes? {
      RunnerFits(devices, s, step);
    }
    var t := Apply(devices, s, step);
    assert t.callers == s.callers;
    assert forall r: RunId :: Held(t, r) <==> Held(s, r);
    assert EnablePending(t) <==> EnablePending(s);
    assert DisablePending(t) <==> DisablePending(s);
  }

  // A returned run stays returned and writes nothing; any other keeps its place.
  lemma RunnerFits(devices: seq<string>, s: State, step: Step)
    requires FleetFits(s) && step.RunnerGoes?
    ensures FleetFits(Apply(devices, s, step))
    ensures s.live == {} ==> Apply(devices, s, step).store == s.store
  {
    hide Fleet.Counted;
    Fleet.ApplyCounted(s.fleet, RunContextDone(s), step.step);
    if s.fleet.main.Returned? {
      Fleet.ReturnedQuiet(s.fleet, step.step);
    }
  }

  lemma ApplyInv(devices: seq<string>, s: State, step: Step)
    requires Inv(devices, s)
    ensures Inv(devices, Apply(devices, s, step))
  {
    hide Inv, CallerStep, LoopStep;
    match step
    case EnableCall(c) =>
      if c !in s.callers && !s.sh.status.enabled {
        EnableInv(devices, s, c);
      }
    case DisableCall(c) =>
      if c !in s.callers && s.sh.status.enabled {
        DisableInv(devices, s, c);
      }
    case CallerGoes(c) =>
      if c in s.callers {
        CallerInv(devices, s, c);
      }
    case LoopGoes(choice) => LoopInv(devices, s, choice);
    case _ => OutsideInv(devices, s, step);
  }

  lemma {:induction false} Always(devices: seq<string>, steps: seq<Step>, n: nat)
    requires n <= |steps|
    ensures Inv(devices, Execute(devices, steps, n))
  {
    if n == 0 {
      InitInv(devices);
    } else {
      Always(devices, steps, n - 1);
      ApplyInv(devices, Execute(devices, steps, n - 1), steps[n - 1]);
    }
  }

  // ----- What holds in every reachable state -----

  /**
   * An Enable is never missed: if the loop sits in the unlimited wait although the provider is enabled,
   * the token is there or the Enable call has yet to send it. A Disable is never missed in the retry wait.
   */
  lemma NoLostWakeup(devices: seq<string>, steps: seq<Step>, n: nat)
    requires n <= |steps|
    ensures var s := Execute(devices, steps, n);
            && (s.loop.WaitDisabled? && s.sh.status.enabled ==>
                  s.wake || exists c :: c in s.callers && s.callers[c] == EnableSignal)
            && (s.loop.WaitRetry? && !s.sh.status.enabled ==>
                  s.wake || exists c :: c in s.callers && !s.callers[c].EnableSignal?)
    ensures var s := Execute(devices, steps, n);
            s.loop.WaitDisabled? && s.sh.status.enabled && s.callers == map[] ==>
              LoopStep(devices, s, TakeToken).loop.Top?
  {
    hide StatusCoherent, RunShape, Fresh, CancelExact, IdleWaits;
    Always(devices, steps, n);
    var s := Execute(devices, steps, n);
    if EnablePending(s) {
      var c :| c in s.callers && s.callers[c].EnableSignal?;
      assert s.callers[c] == EnableSignal;
    }
  }

  /**
   * At most one runner is live. It is reported Running exactly if its own context is not cancelled and
   * no Disable call still holds its cancel function, however calls overlap with the run's end.
   */
  lemma CancellationNeverDropped(devices: seq<string>, steps: seq<Step>, n: nat)
    requires n <= |steps|
    ensures var s := Execute(devices, steps, n);
            && (forall r, q :: r in s.live && q in s.live ==> r == q)
            && (forall r :: r in s.live ==> (s.sh.status.running <==> r !in s.cancelled && !Held(s, r)))
            && (s.callers == map[] && !s.sh.status.enabled ==> s.live <= s.cancelled)
  {
    hide Fresh, WakeKept, IdleWaits;
    Always(devices, steps, n);
  }

  /** Running implies enabled and "running"; unless "stopped", the reported state agrees with Enabled. */
  lemma StatusAlwaysCoherent(devices: seq<string>, steps: seq<Step>, n: nat)
    requires n <= |steps|
    ensures var s := Execute(devices, steps, n);
            && (s.sh.status.running ==> s.sh.status.enabled && s.sh.status.phase == Running)
            && (s.sh.status.phase != Stopped ==>
                  (s.sh.status.enabled <==> s.sh.status.phase in {Starting, Running, Retrying})
                  && (!s.sh.status.enabled <==> s.sh.status.phase in {Stopping, Disabled}))
            && (s.sh.status.running ==> s.sh.runCancel.Some?)
            && (s.loop.WaitDisabled? && !s.sh.status.enabled ==> s.sh.status.phase == Disabled)
            && (s.sh.status.phase == Stopped ==> s.loop.Exited?)
  {
    hide Fresh, CancelExact, WakeKept, IdleWaits;
    Always(devices, steps, n);
  }

  /** Parked in either wait, no runner is live, none of its goroutines can write, and every device is WAIT. */
  lemma IdleMeansWait(devices: seq<string>, steps: seq<Step>, n: nat)
    requires n <= |steps|
    ensures var s := Execute(devices, steps, n);
            s.loop.WaitDisabled? || s.loop.WaitRetry? ==>
              && s.live == {} && (forall d :: d in devices ==> d in s.store && s.store[d] == Wait)
              && (forall action :: !Fleet.MayWrite(s.fleet, action))
  {
    hide Fresh, CancelExact, WakeKept, StatusCoherent, Fleet.Counted, Fleet.MayWrite;
    Always(devices, steps, n);
    var s := Execute(devices, steps, n);
    if s.live == {} {
      forall action
        ensures !Fleet.MayWrite(s.fleet, action)
      {
        Fleet.ReturnedQuiet(s.fleet, action);
      }
    }
  }

  /** A runner is only started while enabled, before the parent context ends, and after the last one ended. */
  lemma StartsOnlyWhenEnabled(devices: seq<string>, steps: seq<Step>, n: nat, run: RunId)
    requires n < |steps|
    ensures var s, t := Execute(devices, steps, n), Execute(devices, steps, n + 1);
            run in t.live && run !in s.live ==>
              && s.sh.status.enabled && !s.ctxDone && s.live == {}
              && t.sh.status == Status(true, true, Running) && run !in t.cancelled && !Held(t, run)
  {
    hide Apply, Fresh, WakeKept, IdleWaits, StatusCoherent, PhaseFollows, Held, RunShape;
    Always(devices, steps, n);
    Always(devices, steps, n + 1);
    var s, t := Execute(devices, steps, n), Execute(devices, steps, n + 1);
    if run in t.live && run !in s.live {
      RunBegins(devices, s, steps[n], run);
    }
  }

  // The one step after which a runner is live that was not.
  lemma RunBegins(devices: seq<string>, s: State, step: Step, run: RunId)
    requires RunShape(s) && run !in s.live && run in Apply(devices, s, step).live
    ensures s.loop.Begin? && s.sh.status.enabled && !s.ctxDone && s.live == {}
    ensures var t := Apply(devices, s, step);
            t.loop == InRun(run) && t.sh == Shared(Status(true, true, Running), Some(run)) && t.live == {run}
  {
    hide Apply, Toggles;
    if step.LoopGoes? {
      BeginStarts(devices, s, step.choice, run);
    } else {
      PhaseStep(devices, s, step);
    }
  }

  lemma BeginStarts(devices: seq<string>, s: State, choice: Choice, run: RunId)
    requires RunShape(s) && run !in s.live && run in Apply(devices, s, LoopGoes(choice)).live
    ensures s.loop.Begin? && s.sh.status.enabled && !s.ctxDone && s.live == {}
    ensures var t := Apply(devices, s, LoopGoes(choice));
            t.loop == InRun(run) && t.sh == Shared(Status(true, true, Running), Some(run)) && t.live == {run}
  {
    if !s.loop.Begin? {
      OnlyBeginStarts(devices, s, choice);
    }
  }

  lemma OnlyBeginStarts(devices: seq<string>, s: State, choice: Choice)
    requires !s.loop.Begin?
    ensures LoopStep(devices, s, choice).live == s.live
  {
    hide RetrySection, StopSection, EndSection, BeginSection, MayBegin, WaitStep;
    if s.loop.WaitDisabled? || s.loop.WaitRetry? {
      WaitKeepsLive(s, s.loop.WaitRetry?, choice);
    }
  }

  lemma WaitKeepsLive(s: State, timed: bool, choice: Choice)
    ensures WaitStep(s, timed, choice).live == s.live
  {}

  // ----- The reported state as a function of the calls -----

  /** The step is the lock section of a call that changes Enabled. */
  predicate Toggles(s: State, step: Step) {
    match step
    case EnableCall(c) => c !in s.callers && !s.sh.status.enabled
    case DisableCall(c) => c !in s.callers && s.sh.status.enabled
    case _ => false
  }

  /** How many calls changed Enabled from the m-th to the n-th state. */
  function ToggleCount(devices: seq<string>, steps: seq<Step>, m: nat, n: nat): nat
    requires m <= n <= |steps|
  {
    if m == n then 0
    else
      ToggleCount(devices, steps, m, n - 1)
      + if Toggles(Execute(devices, steps, n - 1), steps[n - 1]) then 1 else 0
  }

  // A call that changes Enabled sets the reported state; no other step does, except the loop's own.
  lemma PhaseStep(devices: seq<string>, s: State, step: Step)
    requires !step.LoopGoes?
    ensures var t := Apply(devices, s, step);
            && (t.loop == s.loop && t.live <= s.live)
            && (Toggles(s, step) ==>
                  && t.sh.status.enabled == !s.sh.status.enabled && !t.sh.status.running
                  && t.sh.status.phase == if t.sh.status.enabled then Starting
                                          else if s.sh.status.running then Stopping else Disabled)
            && (!Toggles(s, step) ==> t.sh == s.sh)
  {}

  /** "stopped" stays reported exactly as long as no call changes Enabled; then the calls alone decide. */
  lemma {:induction false} StoppedUntilToggled(devices: seq<string>, steps: seq<Step>, m: nat, n: nat)
    requires m <= n <= |steps| && Execute(devices, steps, m).sh.status.phase == Stopped
    ensures var s, k := Execute(devices, steps, n), ToggleCount(devices, steps, m, n);
            && s.loop.Exited? && !s.sh.status.running && s.live == {}
            && (s.sh.status.phase == Stopped <==> k == 0)
            && (k > 0 ==> s.sh.status.phase == if s.sh.status.enabled then Starting else Disabled)
            && (s.sh.status.enabled <==> (Execute(devices, steps, m).sh.status.enabled <==> k % 2 == 0))
    decreases n
  {
    hide Inv, Apply, Toggles;
    if m == n {
      Always(devices, steps, m);
      StoppedShape(devices, Execute(devices, steps, m));
    } else {
      StoppedUntilToggled(devices, steps, m, n - 1);
      var s := Execute(devices, steps, n - 1);
      if steps[n - 1].LoopGoes? {
        ExitedQuiet(devices, s, steps[n - 1]);
      } else {
        PhaseStep(devices, s, steps[n - 1]);
      }
    }
  }

  lemma StoppedShape(devices: seq<string>, s: State)
    requires Inv(devices, s) && s.sh.status.phase == Stopped
    ensures s.loop.Exited? && !s.sh.status.running && s.live == {}
  {
    hide Fresh, CancelExact, WakeKept, IdleWaits;
  }

  lemma ExitedQuiet(devices: seq<string>, s: State, step: Step)
    requires s.loop.Exited? && step.LoopGoes?
    ensures Apply(devices, s, step) == s && !Toggles(s, step)
  {}

  /** What is reported of a live run after k calls have changed Enabled since it began. */
  function PhaseAfter(k: nat): Phase {
    if k == 0 then Running else if k == 1 then Stopping else if k % 2 == 0 then Starting else Disabled
  }

  /**
   * While a runner is live the reported state is a function of the calls since its run began, at step m.
   * So "disabled" is reported of a live runner exactly after an odd number of changes, three or more.
   */
  lemma {:induction false} PhaseWhileLive(devices: seq<string>, steps: seq<Step>, n: nat, run: RunId) returns (m: nat)
    requires n <= |steps| && run in Execute(devices, steps, n).live
    ensures m < n && run !in Execute(devices, steps, m).live && run in Execute(devices, steps, m + 1).live
    ensures var s, k := Execute(devices, steps, n), ToggleCount(devices, steps, m + 1, n);
            && s.loop == InRun(run) && s.sh.status.phase == PhaseAfter(k)
            && (s.sh.status.running <==> k == 0) && (s.sh.status.enabled <==> k % 2 == 0)
    decreases n
  {
    hide Apply, Toggles, Inv;
    assert n > 0;
    var s, t, step := Execute(devices, steps, n - 1), Execute(devices, steps, n), steps[n - 1];
    if run in s.live {
      m := PhaseWhileLive(devices, steps, n - 1, run);
      if step.LoopGoes? {
        LiveQuiet(devices, s, step, run);
      } else {
        PhaseStep(devices, s, step);
      }
    } else {
      m := n - 1;
      Always(devices, steps, n - 1);
      RunBegins(devices, s, step, run);
    }
  }

  lemma LiveQuiet(devices: seq<string>, s: State, step: Step, run: RunId)
    requires s.loop == InRun(run) && run in s.live && step.LoopGoes?
    ensures Apply(devices, s, step) == s && !Toggles(s, step)
  {}

  /** Disabling, enabling and disabling again while one run winds down reports "disabled" of a live runner. */
  lemma DisabledWhileLive(devices: seq<string>)
    ensures var steps := [LoopGoes(SeeDone), LoopGoes(SeeDone), LoopGoes(SeeDone), DisableCall(0), EnableCall(1),
                          DisableCall(2)];
            Execute(devices, steps, 6).sh.status.phase == Disabled && Execute(devices, steps, 6).live == {0}
  {
    var steps := [LoopGoes(SeeDone), LoopGoes(SeeDone), LoopGoes(SeeDone), DisableCall(0), EnableCall(1),
                  DisableCall(2)];
    var s0 := Init(devices);
    assert Execute(devices, steps, 0) == s0;
    assert Execute(devices, steps, 1) == s0.(loop := Check);
    assert Execute(devices, steps, 2) == s0.(loop := Begin);
    var s3 := Execute(devices, steps, 3);
    assert s3.live == {0} && s3.sh.status == Status(true, true, Running) && s3.callers == map[];
    var s4 := Execute(devices, steps, 4);
    assert s4.live == {0} && s4.sh.status == Status(false, false, Stopping) && 1 !in s4.callers && 2 !in s4.callers;
    var s5 := Execute(devices, steps, 5);
    assert s5.live == {0} && s5.sh.status == Status(true, false, Starting) && 2 !in s5.callers;
  }

  /** "stopped" is not final: a Disable that arrives after the loop has exited replaces it. */
  lemma StoppedIsReplaced(devices: seq<string>)
    ensures var steps := [CancelParent, LoopGoes(SeeDone), LoopGoes(SeeDone), DisableCall(0)];
            && Execute(devices, steps, 3).loop.Exited? && Execute(devices, steps, 3).sh.status.phase == Stopped
            && Execute(devices, steps, 4).loop.Exited? && Execute(devices, steps, 4).sh.status.phase == Disabled
  {
    var steps := [CancelParent, LoopGoes(SeeDone), LoopGoes(SeeDone), DisableCall(0)];
    var s1, s2 := Execute(devices, steps, 1), Execute(devices, steps, 2);
    assert Execute(devices, steps, 0) == Init(devices);
    assert s1 == Apply(devices, Init(devices), steps[0]);
    assert s2 == s1.(loop := StopNow);
    assert Execute(devices, steps, 3) == s2.(loop := Exited, sh := StopSection(s2.sh));
  }
}
