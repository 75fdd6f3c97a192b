/**
 * `Provider.Run`: one goroutine per device, a wait group that counts them, and a main goroutine that
 * returns only after joining them. Each action of a goroutine is one atomic step, in any interleaving.
 */
module Fleet {

  /** Where the main goroutine stands. Adding has counted the next worker, not yet started it. */
  datatype Main = Resolving | Starting(next: nat) | Adding(next: nat) | Selecting | Joining | Returned

  /** A device's goroutine. After an error it reports, cancels the others and only then leaves the wait group. */
  datatype Worker = Idle | Running | Failed | Reported | Cancelled | Gone

  /** waiting is the wait group's counter, joined says that the goroutine waiting for it has closed its channel. */
  datatype State = State(
    main: Main, workers: seq<Worker>, waiting: int, joined: bool, errors: nat, cancelled: bool)

  datatype Step =
    | Resolve(ok: bool)
    | Advance
    | WorkerEnds(i: nat, failed: bool)
    | WorkerReports(i: nat)
    | WorkerCancels(i: nat)
    | WorkerLeaves(i: nat)
    | WaiterCloses
    | MainSeesDone
    | MainTakesError
    | MainJoins
    | Writes(i: nat)
    | MainWrites

  function Begun(devices: nat): State {
    State(Resolving, seq(devices, i => Idle), 0, false, 0, false)
  }

  const NO_RUN := State(Returned, [], 0, true, 0, true)

  predicate Is(s: State, i: nat, w: Worker) {
    i < |s.workers| && s.workers[i] == w
  }

  /** Whether the step may touch the store: a device's goroutine while it runs, or the runner itself. */
  predicate MayWrite(s: State, step: Step) {
    match step
    case Writes(i) => Is(s, i, Running)
    case MainWrites => !s.main.Returned?
    case _ => false
  }

  /** One step, given whether the context from outside has ended; a step that is not possible changes nothing. */
  function Apply(s: State, ctxDone: bool, step: Step): State {
    match step
    case Resolve(ok) =>
      if s.main.Resolving? then s.(main := if ok then Starting(0) else Returned) else s
    case Advance => Start(s)
    case WorkerEnds(i, failed) =>
      if !Is(s, i, Running) then s
      else if failed && !ctxDone && !s.cancelled then s.(workers := s.workers[i := Failed])
      else s.(workers := s.workers[i := Gone], waiting := s.waiting - 1)
    case WorkerReports(i) =>
      if !Is(s, i, Failed) then s
      else s.(workers := s.workers[i := Reported], errors := if s.errors < |s.workers| then s.errors + 1 else s.errors)
    case WorkerCancels(i) =>
      if !Is(s, i, Reported) then s else s.(workers := s.workers[i := Cancelled], cancelled := true)
    case WorkerLeaves(i) =>
      if !Is(s, i, Cancelled) then s else s.(workers := s.workers[i := Gone], waiting := s.waiting - 1)
    case WaiterCloses =>
      if (s.main.Selecting? || s.main.Joining?) && s.waiting == 0 then s.(joined := true) else s
    case MainSeesDone => if s.main.Selecting? && (ctxDone || s.cancelled) then s.(main := Joining) else s
    case MainTakesError => if s.main.Selecting? && s.errors > 0 then s.(main := Joining, errors := s.errors - 1) else s
    case MainJoins => if s.main.Joining? && s.joined then s.(main := Returned, cancelled := true) else s
    case Writes(_) => s
    case MainWrites => s
  }

  /** The loop that counts and starts the workers, one at a time. */
  function Start(s: State): State {
    match s.main
    case Starting(next) =>
      if next < |s.workers| then s.(main := Adding(next), waiting := s.waiting + 1) else s.(main := Selecting)
    case Adding(next) =>
      s.(main := Starting(next + 1), workers := if next < |s.workers| then s.workers[next := Running] else s.workers)
    case _ => s
  }

  // ----- The join -----

  predicate Busy(w: Worker) {
    !w.Idle? && !w.Gone?
  }

  function BusyCount(workers: seq<Worker>): nat {
    if workers == [] then 0
    else BusyCount(workers[..|workers| - 1]) + if Busy(workers[|workers| - 1]) then 1 else 0
  }

  /** How far the main goroutine has got in starting workers. */
  function Reached(s: State): nat {
    match s.main
    case Resolving => 0
    case Starting(next) => next
    case Adding(next) => next
    case _ => |s.workers|
  }

  /** The counter counts; workers not reached yet have not started; the channel closes when none is left. */
  predicate Counted(s: State) {
    && s.waiting == BusyCount(s.workers) + (if s.main.Adding? then 1 else 0)
    && Reached(s) <= |s.workers| && (s.main.Adding? ==> s.main.next < |s.workers|)
    && (forall k :: Reached(s) <= k < |s.workers| ==> s.workers[k].Idle?)
    && (s.joined ==> s.waiting == 0 && !s.main.Resolving? && !s.main.Starting? && !s.main.Adding?)
    && (s.main.Returned? ==> s.waiting == 0)
  }

  lemma {:induction false} CountUpdated(workers: seq<Worker>, i: nat, w: Worker)
    requires i < |workers|
    ensures BusyCount(workers[i := w]) ==
            BusyCount(workers) + (if Busy(w) then 1 else 0) - (if Busy(workers[i]) then 1 else 0)
    decreases |workers|
  {
    var last := |workers| - 1;
    if i < last {
      assert workers[i := w][..last] == workers[..last][i := w];
      CountUpdated(workers[..last], i, w);
    } else {
      assert workers[i := w][..last] == workers[..last];
    }
  }

  lemma {:induction false} CountZero(workers: seq<Worker>)
    ensures BusyCount(workers) == 0 <==> forall k :: 0 <= k < |workers| ==> !Busy(workers[k])
    decreases |workers|
  {
    if workers != [] {
      var last := |workers| - 1;
      CountZero(workers[..last]);
      assert forall k :: 0 <= k < last ==> workers[..last][k] == workers[k];
    }
  }

  lemma BegunCounted(devices: nat)
    ensures Counted(Begun(devices))
  {
    CountZero(Begun(devices).workers);
  }

  // A started worker moves on; the counter falls exactly when it is gone.
  lemma WorkerMoved(s: State, t: State, i: nat, w: Worker)
    requires Counted(s) && i < |s.workers| && Busy(s.workers[i]) && !w.Idle?
    requires t.main == s.main && t.joined == s.joined && t.workers == s.workers[i := w]
    requires t.waiting == s.waiting - if Busy(w) then 0 else 1
    ensures Counted(t)
  {
    hide BusyCount;
    CountUpdated(s.workers, i, w);
    CountZero(s.workers);
  }

  lemma StartCounted(s: State)
    requires Counted(s)
    ensures Counted(Start(s)) && |Start(s).workers| == |s.workers|
  {
    hide BusyCount;
    if s.main.Adding? {
      CountUpdated(s.workers, s.main.next, Running);
    }
  }

  lemma MainCounted(s: State, ctxDone: bool, step: Step)
    requires Counted(s) && !step.Advance?
    requires !step.WorkerEnds? && !step.WorkerReports? && !step.WorkerCancels? && !step.WorkerLeaves?
    ensures Counted(Apply(s, ctxDone, step)) && |Apply(s, ctxDone, step).workers| == |s.workers|
  {
    hide BusyCount, Start;
    CountZero(s.workers);
  }

  lemma ApplyCounted(s: State, ctxDone: bool, step: Step)
    requires Counted(s)
    ensures Counted(Apply(s, ctxDone, step)) && |Apply(s, ctxDone, step).workers| == |s.workers|
  {
    hide Counted, Start;
    var t := Apply(s, ctxDone, step);
    match step
    case Advance => StartCounted(s);
    case WorkerEnds(i, failed) =>
      if Is(s, i, Running) {
        WorkerMoved(s, t, i, t.workers[i]);
      }
    case WorkerReports(i) =>
      if Is(s, i, Failed) {
        WorkerMoved(s, t, i, Reported);
      }
    case WorkerCancels(i) =>
      if Is(s, i, Reported) {
        WorkerMoved(s, t, i, Cancelled);
      }
    case WorkerLeaves(i) =>
      if Is(s, i, Cancelled) {
        WorkerMoved(s, t, i, Gone);
      }
    case _ => MainCounted(s, ctxDone, step);
  }

  /** Once `Run` has returned, no goroutine it started is left, so nothing touches the store any more. */
  lemma ReturnedQuiet(s: State, step: Step)
    requires Counted(s) && s.main.Returned?
    ensures !MayWrite(s, step)
    ensures forall k :: 0 <= k < |s.workers| ==> s.workers[k].Idle? || s.workers[k].Gone?
  {
    hide BusyCount;
    CountZero(s.workers);
    assert forall k :: 0 <= k < |s.workers| ==> !Busy(s.workers[k]);
  }

  /** The state after the first n steps of one run, the outer context being as given at each step. */
  function Execute(devices: nat, steps: seq<(bool, Step)>, n: nat): State
    requires n <= |steps|
  {
    if n == 0 then Begun(devices) else Apply(Execute(devices, steps, n - 1), steps[n - 1].0, steps[n - 1].1)
  }

  /** Over every interleaving: after the return there are no writes, and the return is final. */
  lemma {:induction false} NoWriteAfterReturn(devices: nat, steps: seq<(bool, Step)>, m: nat, n: nat)
    requires m <= n <= |steps| && Execute(devices, steps, m).main.Returned?
    ensures Execute(devices, steps, n).main.Returned?
    ensures n < |steps| ==> !MayWrite(Execute(devices, steps, n), steps[n].1)
    decreases n
  {
    hide Counted;
    AlwaysCounted(devices, steps, n);
    if m < n {
      NoWriteAfterReturn(devices, steps, m, n - 1);
    }
    if n < |steps| {
      ReturnedQuiet(Execute(devices, steps, n), steps[n].1);
    }
  }

  lemma {:induction false} AlwaysCounted(devices: nat, steps: seq<(bool, Step)>, n: nat)
    requires n <= |steps|
    ensures Counted(Execute(devices, steps, n)) && |Execute(devices, steps, n).workers| == devices
  {
    hide Counted, Apply;
    if n == 0 {
      BegunCounted(devices);
    } else {
      AlwaysCounted(devices, steps, n - 1);
      ApplyCounted(Execute(devices, steps, n - 1), steps[n - 1].0, steps[n - 1].1);
    }
  }

  // ----- What every goroutine does next -----

  /** One goroutine's part: when a worker fails, what its failure leads to, and that it leaves last. */
  lemma WorkerDecides(s: State, ctxDone: bool, i: nat)
    requires i < |s.workers|
    ensures s.workers[i].Running? ==>
              && Apply(s, ctxDone, WorkerEnds(i, true)).workers[i] == (if ctxDone || s.cancelled then Gone else Failed)
              && Apply(s, ctxDone, WorkerEnds(i, false)).workers[i] == Gone
              && MayWrite(s, Writes(i))
    ensures s.workers[i].Failed? && s.errors < |s.workers| ==>
              Apply(s, ctxDone, WorkerReports(i)) == s.(workers := s.workers[i := Reported], errors := s.errors + 1)
    ensures s.workers[i].Reported? ==>
              Apply(s, ctxDone, WorkerCancels(i)) == s.(workers := s.workers[i := Cancelled], cancelled := true)
    ensures s.workers[i].Cancelled? ==>
              Apply(s, ctxDone, WorkerLeaves(i)) == s.(workers := s.workers[i := Gone], waiting := s.waiting - 1)
    ensures !s.workers[i].Running? ==> !MayWrite(s, Writes(i))
  {}

  /** The main goroutine waits until its context ends or a failure is reported, and then joins. */
  lemma MainDecides(s: State, ctxDone: bool, step: Step)
    ensures s.main.Selecting? ==>
              Apply(s, ctxDone, step).main ==
              if (step.MainSeesDone? && (ctxDone || s.cancelled)) || (step.MainTakesError? && s.errors > 0)
              then Joining else Selecting
    ensures s.main.Joining? ==>
              Apply(s, ctxDone, step).main == if step.MainJoins? && s.joined then Returned else Joining
    ensures (s.main.Selecting? || s.main.Joining?) && s.waiting == 0 ==> Apply(s, ctxDone, WaiterCloses).joined
    ensures s.main.Resolving? ==>
              Apply(s, ctxDone, step).main ==
              if !step.Resolve? then Resolving else if step.ok then Starting(0) else Returned
    ensures s.main.Returned? ==> Apply(s, ctxDone, step).main == Returned
    ensures Apply(s, ctxDone, step).cancelled != s.cancelled ==> step.WorkerCancels? || step.MainJoins?
    ensures MayWrite(s, MainWrites) <==> !s.main.Returned?
    ensures s.main.Joining? && s.joined ==> Apply(s, ctxDone, MainJoins).cancelled
  {}

  /** Several steps, the outer context staying as it is. */
  function After(s: State, ctxDone: bool, steps: seq<Step>): State
    decreases |steps|
  {
    if steps == [] then s else After(Apply(s, ctxDone, steps[0]), ctxDone, steps[1..])
  }

  lemma {:induction false} AfterConcat(s: State, ctxDone: bool, a: seq<Step>, b: seq<Step>)
    ensures After(s, ctxDone, a + b) == After(After(s, ctxDone, a), ctxDone, b)
    decreases |a|
  {
    hide Apply;
    if a == [] {
      assert a + b == b;
    } else {
      assert (a + b)[1..] == a[1..] + b;
      AfterConcat(Apply(s, ctxDone, a[0]), ctxDone, a[1..], b);
    }
  }

  lemma AfterOne(s: State, ctxDone: bool, step: Step)
    ensures After(s, ctxDone, [step]) == Apply(s, ctxDone, step)
  {
    hide Apply;
  }

  /** Every device gets its goroutine: starting goes on until all of them run. */
  lemma {:induction false} AllStarted(s: State, ctxDone: bool) returns (steps: seq<Step>)
    requires s.main.Starting? && s.main.next <= |s.workers|
    requires forall k :: 0 <= k < s.main.next ==> s.workers[k].Running?
    ensures var t := After(s, ctxDone, steps);
            && t.main.Selecting? && |t.workers| == |s.workers|
            && forall k :: 0 <= k < |t.workers| ==> t.workers[k].Running?
    decreases |s.workers| - s.main.next
  {
    if s.main.next == |s.workers| {
      steps := [Advance];
      AfterOne(s, ctxDone, Advance);
    } else {
      var t := Apply(Apply(s, ctxDone, Advance), ctxDone, Advance);
      TwoSteps(s, ctxDone, Advance, Advance);
      var more := AllStarted(t, ctxDone);
      steps := [Advance, Advance] + more;
      AfterConcat(s, ctxDone, [Advance, Advance], more);
    }
  }

  lemma TwoSteps(s: State, ctxDone: bool, a: Step, b: Step)
    ensures After(s, ctxDone, [a, b]) == Apply(Apply(s, ctxDone, a), ctxDone, b)
  {
    hide Apply;
    assert [a, b][1..] == [b];
    AfterOne(Apply(s, ctxDone, a), ctxDone, b);
  }

  // From wherever it is in starting workers, the main goroutine comes to its select.
  lemma {:induction false} ComesToSelect(s: State, ctxDone: bool) returns (steps: seq<Step>)
    requires Counted(s) && (s.main.Starting? || s.main.Adding?)
    ensures var t := After(s, ctxDone, steps);
            Counted(t) && t.main.Selecting? && t.cancelled == s.cancelled && |t.workers| == |s.workers|
    decreases |s.workers| - s.main.next, if s.main.Adding? then 0 else 1
  {
    var t := Apply(s, ctxDone, Advance);
    ApplyCounted(s, ctxDone, Advance);
    AfterOne(s, ctxDone, Advance);
    if t.main.Selecting? {
      steps := [Advance];
    } else {
      var more := ComesToSelect(t, ctxDone);
      steps := [Advance] + more;
      AfterConcat(s, ctxDone, [Advance], more);
    }
  }

  // One worker can always come to its end.
  lemma OneLeaves(s: State, ctxDone: bool, i: nat) returns (steps: seq<Step>)
    requires Counted(s) && i < |s.workers| && Busy(s.workers[i])
    ensures var t := After(s, ctxDone, steps);
            && Counted(t) && t.main == s.main && t.workers == s.workers[i := Gone] && (s.cancelled ==> t.cancelled)
    decreases match s.workers[i] case Running => 0 case Cancelled => 0 case Reported => 1 case _ => 2
  {
    hide Counted;
    var step := match s.workers[i]
      case Running => WorkerEnds(i, false)
      case Failed => WorkerReports(i)
      case Reported => WorkerCancels(i)
      case _ => WorkerLeaves(i);
    var t := Apply(s, ctxDone, step);
    ApplyCounted(s, ctxDone, step);
    AfterOne(s, ctxDone, step);
    steps := [step];
    if Busy(t.workers[i]) {
      var more := OneLeaves(t, ctxDone, i);
      AfterConcat(s, ctxDone, [step], more);
      steps := [step] + more;
      assert t.workers[i := Gone] == s.workers[i := Gone];
    } else {
      assert t.workers == s.workers[i := Gone];
    }
  }

  lemma {:induction false} AllLeave(s: State, ctxDone: bool, i: nat) returns (steps: seq<Step>)
    requires Counted(s) && i <= |s.workers| && forall k :: 0 <= k < i ==> !Busy(s.workers[k])
    ensures var t := After(s, ctxDone, steps);
            && Counted(t) && t.main == s.main && |t.workers| == |s.workers| && (s.cancelled ==> t.cancelled)
            && forall k :: 0 <= k < |t.workers| ==> !Busy(t.workers[k])
    decreases |s.workers| - i
  {
    hide Counted, Apply;
    steps := [];
    if i < |s.workers| {
      var first := [];
      if Busy(s.workers[i]) {
        first := OneLeaves(s, ctxDone, i);
      }
      var more := AllLeave(After(s, ctxDone, first), ctxDone, i + 1);
      steps := first + more;
      AfterConcat(s, ctxDone, first, more);
    }
  }

  /**
   * Once the context has ended, outside or because a worker failed, `Run` can return: there are steps of
   * its own goroutines that lead there, wherever they all stand.
   */
  lemma CanReturn(s: State, ctxDone: bool) returns (steps: seq<Step>)
    requires Counted(s) && (ctxDone || s.cancelled)
    ensures After(s, ctxDone, steps).main.Returned?
  {
    if s.main.Returned? {
      steps := [];
    } else if s.main.Resolving? {
      steps := [Resolve(false)];
      AfterOne(s, ctxDone, Resolve(false));
    } else {
      var starting := [];
      if s.main.Starting? || s.main.Adding? {
        starting := ComesToSelect(s, ctxDone);
      }
      var t := After(s, ctxDone, starting);
      var leaving := AllLeave(t, ctxDone, 0);
      var u := After(t, ctxDone, leaving);
      var joining := EmptyReturns(u, ctxDone);
      AfterConcat(s, ctxDone, starting, leaving);
      AfterConcat(s, ctxDone, starting + leaving, joining);
      steps := starting + leaving + joining;
    }
  }

  lemma EmptyReturns(s: State, ctxDone: bool) returns (steps: seq<Step>)
    requires Counted(s) && (ctxDone || s.cancelled) && (s.main.Selecting? || s.main.Joining?)
    requires forall k :: 0 <= k < |s.workers| ==> !Busy(s.workers[k])
    ensures After(s, ctxDone, steps).main.Returned?
  {
    hide BusyCount;
    CountZero(s.workers);
    var t := Apply(s, ctxDone, MainSeesDone);
    AfterOne(s, ctxDone, MainSeesDone);
    TwoSteps(t, ctxDone, WaiterCloses, MainJoins);
    AfterConcat(s, ctxDone, [MainSeesDone], [WaiterCloses, MainJoins]);
    steps := [MainSeesDone] + [WaiterCloses, MainJoins];
  }
}
