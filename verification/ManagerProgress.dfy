/** What the manager's loop, its callers and a cancelled run can always go on to do. */
module ManagerProgress {
  import opened Bytes
  import opened Manager
  import Fleet

  // ----- The waits -----

  /** Exactly what ends the retry wait: its timer, the token if it is there, the context if it has ended. */
  lemma RetryWaitEnds(devices: seq<string>, s: State, choice: Choice)
    requires s.loop.WaitRetry?
    ensures LoopStep(devices, s, choice) ==
            match choice
            case SeeTimer => s.(loop := Top)
            case TakeToken => if s.wake then s.(wake := false, loop := Top) else s
            case SeeDone => if s.ctxDone then s.(loop := StopNow) else s
  {}

  /** And the disabled wait: never a timer. */
  lemma DisabledWaitEnds(devices: seq<string>, s: State, choice: Choice)
    requires s.loop.WaitDisabled?
    ensures LoopStep(devices, s, choice) ==
            match choice
            case SeeTimer => s
            case TakeToken => if s.wake then s.(wake := false, loop := Top) else s
            case SeeDone => if s.ctxDone then s.(loop := StopNow) else s
  {}

  /** What both waits look at: the token and the context. */
  predicate Seen(s: State, choice: Choice) {
    (choice == TakeToken && s.wake) || (choice == SeeDone && s.ctxDone)
  }

  /** The loop stands still only in a wait with nothing to see, beside a live runner, or when it has exited. */
  lemma LoopMoves(devices: seq<string>, s: State, choice: Choice)
    ensures LoopStep(devices, s, choice) == s <==>
            || s.loop.Exited?
            || (s.loop.InRun? && s.loop.run in s.live)
            || (s.loop.WaitDisabled? && !Seen(s, choice))
            || (s.loop.WaitRetry? && !Seen(s, choice) && choice != SeeTimer)
  {
    hide BeginSection, EndSection, RetrySection, StopSection;
  }

  /** Everywhere else there is one way on, and this is what it does. */
  lemma LoopDecides(devices: seq<string>, s: State, choice: Choice)
    ensures var t, next := LoopStep(devices, s, choice), s.nextRun;
            match s.loop
            case Top => t == s.(loop := if s.ctxDone then StopNow else Check)
            case Check => t == s.(loop := if s.sh.status.enabled then Begin else WaitDisabled)
            case Begin =>
              t == if !s.sh.status.enabled || s.ctxDone then s.(loop := AfterRun)
                   else s.(sh := Shared(Status(true, true, Running), Some(next)), loop := InRun(next),
                           live := s.live + {next}, fleet := Fleet.Begun(|devices|), nextRun := next + 1)
            case InRun(run) => t == if run in s.live then s else s.(loop := Ended(run))
            case Ended(run) => t == s.(sh := Shared(s.sh.status.(running := false), None), loop := Unwinding(run))
            case Unwinding(run) => t == s.(cancelled := s.cancelled + {run}, loop := AfterRun)
            case AfterRun => t == s.(loop := if s.ctxDone then StopNow else Marking(0))
            case Marking(done) =>
              t == if done < |devices| then s.(store := s.store[devices[done] := Wait], loop := Marking(done + 1))
                   else s.(loop := BeforeRetry)
            case BeforeRetry =>
              var phase := if s.sh.status.enabled then Retrying else Disabled;
              t == s.(sh := s.sh.(status := Status(s.sh.status.enabled, false, phase)),
                      loop := if s.sh.status.enabled then WaitRetry else Top)
            case StopNow => t == s.(sh := Shared(Status(s.sh.status.enabled, false, Stopped), None), loop := Exited)
            case Exited => t == s
            case _ => true
  {
    hide WaitStep;
  }

  /** No run's context is left behind: every run but the present one has been cancelled. */
  lemma {:induction false} EveryRunCancelled(devices: seq<string>, steps: seq<Step>, n: nat)
    requires n <= |steps|
    ensures AllCancelled(Execute(devices, steps, n))
    decreases n
  {
    hide Apply, AllCancelled, Inv;
    if n == 0 {
      NoRunYet(devices);
    } else {
      EveryRunCancelled(devices, steps, n - 1);
      Always(devices, steps, n - 1);
      CancelledKept(devices, Execute(devices, steps, n - 1), steps[n - 1]);
    }
  }

  predicate Present(l: Loop, run: RunId) {
    (l.InRun? || l.Ended? || l.Unwinding?) && l.run == run
  }

  ghost predicate AllCancelled(s: State) {
    forall run: RunId :: run < s.nextRun ==> run in s.cancelled || Present(s.loop, run)
  }

  lemma NoRunYet(devices: seq<string>)
    ensures AllCancelled(Init(devices))
  {}

  lemma CancelledKept(devices: seq<string>, s: State, step: Step)
    requires AllCancelled(s)
    ensures AllCancelled(Apply(devices, s, step))
  {
    hide LoopStep, CallerStep, RunnerStep, EnableSection, DisableSection;
    match step
    case CallerGoes(c) =>
      if c in s.callers {
        CallerMoves(devices, s, c);
        CallerOnly(devices, s, c);
      }
    case LoopGoes(choice) => LoopKeepsCancelled(devices, s, choice);
    case RunnerGoes(_, _, _) => RunnerOnly(devices, s, step);
    case _ =>
  }

  lemma LoopKeepsCancelled(devices: seq<string>, s: State, choice: Choice)
    requires AllCancelled(s)
    ensures AllCancelled(LoopStep(devices, s, choice))
  {
    hide BeginSection, EndSection, RetrySection, StopSection, MayBegin, WaitStep;
    if s.loop.WaitDisabled? || s.loop.WaitRetry? {
      WaitOnly(s, s.loop.WaitRetry?, choice);
    }
    assert forall run: RunId :: run < s.nextRun ==> run in s.cancelled || Present(s.loop, run);
  }

  lemma WaitOnly(s: State, timed: bool, choice: Choice)
    requires s.loop.WaitDisabled? || s.loop.WaitRetry?
    ensures var t := WaitStep(s, timed, choice);
            t.cancelled == s.cancelled && t.nextRun == s.nextRun
            && (t.loop == s.loop || t.loop.Top? || t.loop.StopNow?)
  {}

  /** A goroutine that may write does write, to its own device. */
  lemma WriteTakesEffect(devices: seq<string>, s: State, i: nat, ups: Ups)
    requires i < |devices|
    ensures Fleet.MayWrite(s.fleet, Fleet.Writes(i)) ==>
              RunnerStep(devices, s, Fleet.Writes(i), 0, ups).store == s.store[devices[i] := ups]
    ensures Fleet.MayWrite(s.fleet, Fleet.MainWrites) ==>
              RunnerStep(devices, s, Fleet.MainWrites, i, ups).store == s.store[devices[i] := ups]
  {}

  // ----- Several steps of the loop alone -----

  function Loops(devices: seq<string>, s: State, choices: seq<Choice>): State
    decreases |choices|
  {
    if choices == [] then s else Loops(devices, LoopStep(devices, s, choices[0]), choices[1..])
  }

  lemma FirstLoop(devices: seq<string>, s: State, choice: Choice, more: seq<Choice>)
    ensures Loops(devices, s, [choice] + more) == Loops(devices, LoopStep(devices, s, choice), more)
  {
    hide LoopStep;
    assert ([choice] + more)[1..] == more;
  }

  lemma {:induction false} LoopsConcat(devices: seq<string>, s: State, a: seq<Choice>, b: seq<Choice>)
    ensures Loops(devices, s, a + b) == Loops(devices, Loops(devices, s, a), b)
    decreases |a|
  {
    hide LoopStep;
    if a == [] {
      assert a + b == b;
    } else {
      assert (a + b)[1..] == a[1..] + b;
      LoopsConcat(devices, LoopStep(devices, s, a[0]), a[1..], b);
    }
  }

  /** Who is enabled, whether the context lives, and who is calling: what the loop alone does not change. */
  predicate SameOutside(s: State, t: State) {
    && t.sh.status.enabled == s.sh.status.enabled && t.ctxDone == s.ctxDone && t.callers == s.callers
  }

  lemma LoopKeepsOutside(devices: seq<string>, s: State, choice: Choice)
    ensures SameOutside(s, LoopStep(devices, s, choice))
  {
    hide WaitStep, BeginSection, EndSection, RetrySection, StopSection, MayBegin;
    SectionsKeepEnabled(s);
    match s.loop
    case WaitDisabled => WaitKeepsOutside(s, false, choice);
    case WaitRetry => WaitKeepsOutside(s, true, choice);
    case Top =>
    case Check =>
    case Begin =>
    case InRun(_) =>
    case Ended(_) =>
    case Unwinding(_) =>
    case AfterRun =>
    case Marking(_) =>
    case BeforeRetry =>
    case StopNow =>
    case Exited =>
  }

  lemma WaitKeepsOutside(s: State, timed: bool, choice: Choice)
    ensures SameOutside(s, WaitStep(s, timed, choice))
  {}

  lemma SectionsKeepEnabled(s: State)
    ensures BeginSection(s.sh, s.nextRun, s.ctxDone).status.enabled == s.sh.status.enabled
    ensures EndSection(s.sh).status.enabled == s.sh.status.enabled
    ensures RetrySection(s.sh).status.enabled == s.sh.status.enabled
    ensures StopSection(s.sh).status.enabled == s.sh.status.enabled
  {}

  // ----- Round to a new runner -----

  /** The places from which the loop goes back to its top: after a run, and a start that was refused. */
  predicate Returning(s: State) {
    || s.loop.InRun? || s.loop.Ended? || s.loop.Unwinding? || s.loop.AfterRun? || s.loop.Marking?
    || s.loop.BeforeRetry? || s.loop.WaitRetry? || (s.loop.Begin? && !s.sh.status.enabled)
  }

  function Distance(devices: seq<string>, l: Loop): nat {
    match l
    case InRun(_) => |devices| + 9
    case Ended(_) => |devices| + 8
    case Unwinding(_) => |devices| + 7
    case Begin => |devices| + 7
    case AfterRun => |devices| + 6
    case Marking(done) => if done <= |devices| then |devices| - done + 5 else 5
    case BeforeRetry => 4
    case WaitRetry => 3
    case _ => 0
  }

  lemma {:induction false} ComesToTop(devices: seq<string>, s: State) returns (choices: seq<Choice>)
    requires Inv(devices, s) && s.live == {} && !s.ctxDone && (Returning(s) || s.loop.Top?)
    ensures var t := Loops(devices, s, choices);
            Inv(devices, t) && t.loop.Top? && t.live == {} && SameOutside(s, t) && t.nextRun == s.nextRun
    decreases Distance(devices, s.loop)
  {
    hide Inv, LoopStep, Returning;
    choices := [];
    if Returning(s) {
      var t := LoopStep(devices, s, SeeTimer);
      LoopInv(devices, s, SeeTimer);
      LoopKeepsOutside(devices, s, SeeTimer);
      TowardsTop(devices, s);
      var more := ComesToTop(devices, t);
      FirstLoop(devices, s, SeeTimer, more);
      choices := [SeeTimer] + more;
    }
  }

  lemma TowardsTop(devices: seq<string>, s: State)
    requires Inv(devices, s) && s.live == {} && !s.ctxDone && Returning(s)
    ensures var t := LoopStep(devices, s, SeeTimer);
            && t.live == {} && t.nextRun == s.nextRun && (Returning(t) || t.loop.Top?)
            && Distance(devices, t.loop) < Distance(devices, s.loop)
  {
    hide StatusCoherent, RunShape, Fresh, CancelExact, WakeKept, PhaseFollows, FleetFits,
      EndSection, RetrySection, StopSection, BeginSection;
  }

  /** The run that was to come next has begun. */
  predicate Begun(s: State, t: State) {
    && t.loop == InRun(s.nextRun) && t.live == {s.nextRun} && t.sh.runCancel == Some(s.nextRun)
    && t.sh.status == Status(true, true, Running) && !t.fleet.main.Returned?
  }

  lemma BeginBegins(devices: seq<string>, s: State)
    requires s.loop.Begin? && s.sh.status.enabled && !s.ctxDone && s.live == {}
    ensures Begun(s, Loops(devices, s, [SeeDone]))
  {
    FirstLoop(devices, s, SeeDone, []);
  }

  lemma CheckBegins(devices: seq<string>, s: State)
    requires s.loop.Check? && s.sh.status.enabled && !s.ctxDone && s.live == {}
    ensures Begun(s, Loops(devices, s, [SeeDone] + [SeeDone]))
  {
    hide Begun;
    FirstLoop(devices, s, SeeDone, [SeeDone]);
    BeginBegins(devices, s.(loop := Begin));
    SameBegun(s.(loop := Begin), s, Loops(devices, s.(loop := Begin), [SeeDone]));
  }

  lemma SameBegun(s: State, t: State, u: State)
    requires s.nextRun == t.nextRun && Begun(s, u)
    ensures Begun(t, u)
  {}

  lemma TopBegins(devices: seq<string>, s: State)
    requires s.loop.Top? && s.sh.status.enabled && !s.ctxDone && s.live == {}
    ensures Begun(s, Loops(devices, s, [SeeDone] + ([SeeDone] + [SeeDone])))
  {
    hide Begun;
    FirstLoop(devices, s, SeeDone, [SeeDone] + [SeeDone]);
    CheckBegins(devices, s.(loop := Check));
    SameBegun(s.(loop := Check), s, Loops(devices, s.(loop := Check), [SeeDone] + [SeeDone]));
  }

  /** The loop gives up only after its context has ended. */
  lemma {:induction false} StopsOnlyAtTheEnd(devices: seq<string>, steps: seq<Step>, n: nat)
    requires n <= |steps|
    ensures var s := Execute(devices, steps, n); s.loop.StopNow? || s.loop.Exited? ==> s.ctxDone
    decreases n
  {
    hide Apply;
    if n > 0 {
      StopsOnlyAtTheEnd(devices, steps, n - 1);
      StopNeedsEnd(devices, Execute(devices, steps, n - 1), steps[n - 1]);
    }
  }

  lemma StopNeedsEnd(devices: seq<string>, s: State, step: Step)
    requires s.loop.StopNow? || s.loop.Exited? ==> s.ctxDone
    ensures var t := Apply(devices, s, step);
            (s.ctxDone ==> t.ctxDone) && (t.loop.StopNow? || t.loop.Exited? ==> t.ctxDone)
  {
    hide BeginSection, EndSection, RetrySection, StopSection, EnableSection, DisableSection, RunnerStep, CallerStep;
    if step.CallerGoes? && step.c in s.callers {
      CallerOnly(devices, s, step.c);
    }
    if step.RunnerGoes? {
      RunnerOnly(devices, s, step);
    }
  }

  lemma CallerOnly(devices: seq<string>, s: State, c: CallerId)
    requires c in s.callers
    ensures var t := CallerStep(devices, s, c);
            && t.loop == s.loop && t.ctxDone == s.ctxDone && t.sh == s.sh && t.nextRun == s.nextRun
            && s.cancelled <= t.cancelled
  {}

  lemma RunnerOnly(devices: seq<string>, s: State, step: Step)
    requires step.RunnerGoes?
    ensures var t := RunnerStep(devices, s, step.step, step.device, step.ups);
            && t.loop == s.loop && t.ctxDone == s.ctxDone && t.sh == s.sh && t.cancelled == s.cancelled
            && t.nextRun == s.nextRun
  {}

  /**
   * A runner that ended is always followed by another: in every reachable state that is enabled, with the
   * context alive, no runner live and no call under way, the loop's own steps begin the next run.
   */
  lemma NewRunnerComes(devices: seq<string>, steps: seq<Step>, n: nat) returns (choices: seq<Choice>)
    requires n <= |steps|
    ensures var s := Execute(devices, steps, n);
            s.sh.status.enabled && !s.ctxDone && s.live == {} && s.callers == map[] ==>
              Begun(s, Loops(devices, s, choices))
  {
    hide Inv, LoopStep, Begun;
    var s := Execute(devices, steps, n);
    choices := [];
    if s.sh.status.enabled && !s.ctxDone && s.live == {} && s.callers == map[] {
      Always(devices, steps, n);
      StopsOnlyAtTheEnd(devices, steps, n);
      NoLostWakeup(devices, steps, n);
      choices := BeginsNext(devices, s);
    }
  }

  lemma BeginsNext(devices: seq<string>, s: State) returns (choices: seq<Choice>)
    requires Inv(devices, s) && s.sh.status.enabled && !s.ctxDone && s.live == {}
    requires !s.loop.StopNow? && !s.loop.Exited? && (s.loop.WaitDisabled? ==> s.wake)
    ensures Begun(s, Loops(devices, s, choices))
  {
    hide Inv, LoopStep, Begun;
    if s.loop.Begin? {
      BeginBegins(devices, s);
      choices := [SeeDone];
    } else if s.loop.Check? {
      CheckBegins(devices, s);
      choices := [SeeDone] + [SeeDone];
    } else {
      var t, before := s, [];
      if s.loop.WaitDisabled? {
        before := [TakeToken];
        t := s.(wake := false, loop := Top);
        DisabledWaitEnds(devices, s, TakeToken);
        FirstLoop(devices, s, TakeToken, []);
      } else {
        before := ComesToTop(devices, s);
        t := Loops(devices, s, before);
      }
      TopBegins(devices, t);
      SameBegun(t, s, Loops(devices, t, [SeeDone] + ([SeeDone] + [SeeDone])));
      LoopsConcat(devices, s, before, [SeeDone] + ([SeeDone] + [SeeDone]));
      choices := before + ([SeeDone] + ([SeeDone] + [SeeDone]));
    }
  }

  /** Disabled, it comes to rest: parked in the disabled wait, reported "disabled". */
  lemma DisabledRests(devices: seq<string>, steps: seq<Step>, n: nat) returns (choices: seq<Choice>)
    requires n <= |steps|
    ensures var s := Execute(devices, steps, n);
            !s.sh.status.enabled && !s.ctxDone && s.live == {} ==>
              var t := Loops(devices, s, choices);
              t.loop.WaitDisabled? && t.live == {} && t.sh.status == Status(false, false, Disabled)
  {
    hide Inv, LoopStep;
    var s := Execute(devices, steps, n);
    choices := [];
    if !s.sh.status.enabled && !s.ctxDone && s.live == {} {
      Always(devices, steps, n);
      StopsOnlyAtTheEnd(devices, steps, n);
      choices := GoesToRest(devices, s);
    }
  }

  lemma GoesToRest(devices: seq<string>, s: State) returns (choices: seq<Choice>)
    requires Inv(devices, s) && !s.sh.status.enabled && !s.ctxDone && s.live == {}
    requires !s.loop.StopNow? && !s.loop.Exited?
    ensures var t := Loops(devices, s, choices);
            t.loop.WaitDisabled? && t.live == {} && t.sh.status == Status(false, false, Disabled)
  {
    hide Inv, LoopStep;
    if s.loop.WaitDisabled? {
      choices := [];
      RestReported(devices, s);
    } else if s.loop.Check? {
      CheckRests(devices, s);
      choices := [SeeDone];
    } else {
      var before := ComesToTop(devices, s);
      var t := Loops(devices, s, before);
      TopRests(devices, t);
      LoopsConcat(devices, s, before, [SeeDone] + [SeeDone]);
      choices := before + ([SeeDone] + [SeeDone]);
    }
  }

  lemma RestReported(devices: seq<string>, s: State)
    requires Inv(devices, s) && !s.sh.status.enabled && (s.loop.WaitDisabled? || s.loop.Check? || s.loop.Top?)
    ensures s.sh.status == Status(false, false, Disabled)
  {
    hide Fresh, CancelExact, WakeKept, IdleWaits, FleetFits;
  }

  lemma CheckRests(devices: seq<string>, s: State)
    requires Inv(devices, s) && s.loop.Check? && !s.sh.status.enabled && s.live == {}
    ensures var t := Loops(devices, s, [SeeDone]);
            t.loop.WaitDisabled? && t.live == {} && t.sh.status == Status(false, false, Disabled)
  {
    RestReported(devices, s);
    hide Inv;
    FirstLoop(devices, s, SeeDone, []);
  }

  lemma TopRests(devices: seq<string>, s: State)
    requires Inv(devices, s) && s.loop.Top? && !s.ctxDone && !s.sh.status.enabled && s.live == {}
    ensures var t := Loops(devices, s, [SeeDone] + [SeeDone]);
            t.loop.WaitDisabled? && t.live == {} && t.sh.status == Status(false, false, Disabled)
  {
    hide Inv;
    LoopInv(devices, s, SeeDone);
    FirstLoop(devices, s, SeeDone, [SeeDone]);
    CheckRests(devices, s.(loop := Check));
  }

  // ----- Round to the end -----

  function ToExit(devices: seq<string>, l: Loop): nat {
    match l
    case Exited => 0
    case StopNow => 1
    case Begin => 3
    case Check => 4
    case BeforeRetry => 3
    case Marking(done) => if done <= |devices| then |devices| - done + 4 else 4
    case Unwinding(_) => 3
    case Ended(_) => 4
    case InRun(_) => 5
    case _ => 2
  }

  /** Once the context has ended and no runner is live, the loop's own steps lead it out, reported "stopped". */
  lemma {:induction false} Stops(devices: seq<string>, s: State) returns (choices: seq<Choice>)
    requires s.ctxDone && s.live == {} && !s.loop.Exited? && (s.loop.Marking? ==> s.loop.done <= |devices|)
    ensures var t := Loops(devices, s, choices);
            && t.loop.Exited? && t.live == {} && SameOutside(s, t)
            && t.sh == Shared(Status(s.sh.status.enabled, false, Stopped), None)
    decreases ToExit(devices, s.loop)
  {
    hide LoopStep;
    var t := LoopStep(devices, s, SeeDone);
    LoopKeepsOutside(devices, s, SeeDone);
    TowardsExit(devices, s);
    choices := [SeeDone];
    FirstLoop(devices, s, SeeDone, []);
    if !t.loop.Exited? {
      var more := Stops(devices, t);
      FirstLoop(devices, s, SeeDone, more);
      choices := [SeeDone] + more;
    }
  }

  lemma TowardsExit(devices: seq<string>, s: State)
    requires s.ctxDone && s.live == {} && !s.loop.Exited? && (s.loop.Marking? ==> s.loop.done <= |devices|)
    ensures var t := LoopStep(devices, s, SeeDone);
            && t.live == {} && ToExit(devices, t.loop) < ToExit(devices, s.loop)
            && (t.loop.Marking? ==> t.loop.done <= |devices|)
            && (t.loop.Exited? ==> t.sh == Shared(Status(s.sh.status.enabled, false, Stopped), None))
  {
    hide EndSection, RetrySection, BeginSection;
  }

  // ----- Calls -----

  /** What a call's first section leaves it to do. */
  lemma CallBegins(devices: seq<string>, s: State, c: CallerId)
    requires c !in s.callers
    ensures Apply(devices, s, EnableCall(c)).callers ==
            if s.sh.status.enabled then s.callers else s.callers[c := EnableSignal]
    ensures Apply(devices, s, DisableCall(c)).callers ==
            if !s.sh.status.enabled then s.callers
            else s.callers[c := DisableMark(0, if s.sh.status.running then s.sh.runCancel else None)]
  {}

  function CallerSteps(devices: seq<string>, s: State, c: CallerId, n: nat): State
    decreases n
  {
    if n == 0 || c !in s.callers then s else CallerSteps(devices, CallerStep(devices, s, c), c, n - 1)
  }

  /** The run a call is still to cancel. */
  function ToCancel(k: Caller): Option<RunId> {
    match k
    case DisableMark(_, cancel) => cancel
    case DisableCancel(run) => Some(run)
    case _ => None
  }

  /**
   * Every call can finish by its own steps: it leaves the token, has cancelled the run whose cancel function
   * it held and no other, and has marked every device it had yet to mark.
   */
  lemma {:induction false} CallFinishes(devices: seq<string>, s: State, c: CallerId) returns (n: nat)
    requires c in s.callers
    ensures var t, k := CallerSteps(devices, s, c, n), s.callers[c];
            && t.callers == s.callers - {c} && t.wake && t.sh == s.sh && t.loop == s.loop
            && t.cancelled == s.cancelled + (if ToCancel(k).Some? then {ToCancel(k).value} else {})
            && (forall d :: d in s.store ==> d in t.store && (t.store[d] == s.store[d] || t.store[d] == Wait))
            && (k.DisableMark? ==>
                  forall i :: k.done <= i < |devices| ==> devices[i] in t.store && t.store[devices[i]] == Wait)
            && (!k.DisableMark? ==> t.store == s.store)
    decreases match s.callers[c]
              case DisableMark(done, _) => if done <= |devices| then 3 + |devices| - done else 3
              case DisableCancel(_) => 2
              case _ => 1
  {
    hide CallerStep;
    var t := CallerStep(devices, s, c);
    CallerMoves(devices, s, c);
    assert t.callers - {c} == s.callers - {c};
    if c in t.callers {
      var m := CallFinishes(devices, t, c);
      n := m + 1;
    } else {
      n := 1;
      assert CallerSteps(devices, t, c, 0) == t;
    }
  }

  // One step of a call, by what it had left to do.
  lemma CallerMoves(devices: seq<string>, s: State, c: CallerId)
    requires c in s.callers
    ensures var t := CallerStep(devices, s, c);
            && t.sh == s.sh && t.loop == s.loop && t.callers - {c} == s.callers - {c}
            && match s.callers[c]
               case EnableSignal => c !in t.callers && t.wake && t.cancelled == s.cancelled && t.store == s.store
               case DisableSignal => c !in t.callers && t.wake && t.cancelled == s.cancelled && t.store == s.store
               case DisableCancel(run) =>
                 && c in t.callers && t.callers[c] == DisableSignal
                 && t.cancelled == s.cancelled + {run} && t.store == s.store
               case DisableMark(done, cancel) =>
                 && c in t.callers && t.cancelled == s.cancelled
                 && t.store == (if done < |devices| then s.store[devices[done] := Wait] else s.store)
                 && t.callers[c] == if done < |devices| then DisableMark(done + 1, cancel)
                                    else if cancel.Some? then DisableCancel(cancel.value) else DisableSignal
  {}

  // ----- A cancelled run -----

  function RunnerSteps(devices: seq<string>, s: State, actions: seq<Fleet.Step>): State
    decreases |actions|
  {
    if actions == [] then s
    else RunnerSteps(devices, RunnerStep(devices, s, actions[0], 0, Wait), actions[1..])
  }

  lemma {:induction false} RunnerFollowsFleet(devices: seq<string>, s: State, actions: seq<Fleet.Step>)
    requires s.fleet.main.Returned? ==> s.live == {}
    ensures var t := RunnerSteps(devices, s, actions);
            && t.fleet == Fleet.After(s.fleet, RunContextDone(s), actions)
            && (t.fleet.main.Returned? ==> t.live == {}) && t.loop == s.loop && t.sh == s.sh
    decreases |actions|
  {
    hide Fleet.Apply;
    if actions != [] {
      var t := RunnerStep(devices, s, actions[0], 0, Wait);
      assert RunContextDone(t) == RunContextDone(s);
      RunnerFollowsFleet(devices, t, actions[1..]);
    }
  }

  /**
   * A live run whose context has ended, by its own cancel function or the parent's end, can always return:
   * in every reachable state the steps of its own goroutines lead there.
   */
  lemma CancelledRunReturns(devices: seq<string>, steps: seq<Step>, n: nat) returns (actions: seq<Fleet.Step>)
    requires n <= |steps|
    ensures var s := Execute(devices, steps, n);
            s.loop.InRun? && (s.ctxDone || s.loop.run in s.cancelled) ==>
              var t := RunnerSteps(devices, s, actions);
              && t.live == {} && t.loop == s.loop && t.sh == s.sh
              && LoopStep(devices, t, SeeDone).loop == Ended(s.loop.run)
  {
    var s := Execute(devices, steps, n);
    actions := [];
    Always(devices, steps, n);
    hide Inv, Fleet.Counted, Fleet.Apply;
    if s.loop.InRun? && (s.ctxDone || s.loop.run in s.cancelled) {
      FleetOf(devices, s);
      actions := Fleet.CanReturn(s.fleet, true);
      RunnerFollowsFleet(devices, s, actions);
    }
  }

  lemma FleetOf(devices: seq<string>, s: State)
    requires Inv(devices, s)
    ensures Fleet.Counted(s.fleet) && (s.fleet.main.Returned? ==> s.live == {})
  {
    hide StatusCoherent, RunShape, Fresh, CancelExact, WakeKept, PhaseFollows, IdleWaits;
  }
}
