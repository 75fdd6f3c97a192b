/**
 * `connectWithTimeout`: a worker opens the connection, an unbuffered channel hands it over, and a
 * context ends the attempt. Each goroutine action is one atomic step, in any interleaving.
 */
module Connect {

  /** Where the goroutine that calls connect stands; its result may be a connection, an error or both. */
  datatype Worker =
    | NotStarted
    | Connecting
    | Offering(conn: bool, failed: bool)
    | Handed
    | Gone

  /** Where the caller stands; what it returned, and whether its error names the parent's end or the timeout. */
  datatype Caller =
    | Entering
    | Selecting
    | ReturnedResult(conn: bool, failed: bool)
    | ReturnedError(byParent: bool)

  datatype State = State(
    worker: Worker, caller: Caller, parentDone: bool, timedOut: bool, cancelled: bool,
    opens: nat, closes: nat)

  /** The context both goroutines select on: the parent's end, the timeout, or the caller's deferred cancel. */
  predicate CtxDone(s: State) {
    s.parentDone || s.timedOut || s.cancelled
  }

  datatype Step =
    | ParentEnds
    | TimeRunsOut
    | CallerEnters
    | ConnectReturns(conn: bool, failed: bool)
    | HandOver
    | WorkerSeesDone
    | CallerSeesDone

  const INIT := State(NotStarted, Entering, false, false, false, 0, 0)

  predicate Possible(s: State, step: Step) {
    match step
    case ParentEnds => true
    case TimeRunsOut => true
    case CallerEnters => s.caller.Entering?
    case ConnectReturns(_, _) => s.worker.Connecting?
    case HandOver => s.worker.Offering? && s.caller.Selecting?
    case WorkerSeesDone => s.worker.Offering? && CtxDone(s)
    case CallerSeesDone => s.caller.Selecting? && CtxDone(s)
  }

  function Apply(s: State, step: Step): State {
    if !Possible(s, step) then s
    else
      match step
      case ParentEnds => s.(parentDone := true)
      case TimeRunsOut => s.(timedOut := true)
      case CallerEnters =>
        if s.parentDone then s.(caller := ReturnedError(true), cancelled := true)
        else s.(caller := Selecting, worker := Connecting)
      case ConnectReturns(conn, failed) =>
        s.(worker := Offering(conn, failed), opens := s.opens + if conn then 1 else 0)
      case HandOver =>
        s.(worker := Handed, caller := ReturnedResult(s.worker.conn, s.worker.failed), cancelled := true)
      case WorkerSeesDone => s.(worker := Gone, closes := s.closes + if s.worker.conn then 1 else 0)
      case CallerSeesDone => s.(caller := ReturnedError(s.parentDone), cancelled := true)
  }

  function Execute(steps: seq<Step>, n: nat): State
    requires n <= |steps|
  {
    if n == 0 then INIT else Apply(Execute(steps, n - 1), steps[n - 1])
  }

  predicate Returned(s: State) {
    s.caller.ReturnedResult? && s.caller.conn
  }

  predicate InFlight(s: State) {
    s.worker.Offering? && s.worker.conn
  }

  predicate Owned(s: State) {
    && s.opens <= 1
    && s.opens == (if Returned(s) then 1 else 0) + s.closes + (if InFlight(s) then 1 else 0)
    && (s.caller.Entering? ==> s.worker.NotStarted?)
    && (s.worker.NotStarted? ==> s.caller.Entering? || s.caller.ReturnedError?)
    && (s.worker.NotStarted? || s.worker.Connecting? ==> s.opens == 0)
    && (s.caller.ReturnedResult? <==> s.worker.Handed?)
    && (s.caller.ReturnedError? || s.caller.ReturnedResult? <==> s.cancelled)
    && (s.worker.Gone? ==> CtxDone(s))
    && (s.caller.ReturnedError? ==> if s.caller.byParent then s.parentDone else s.timedOut)
  }

  lemma StepOwned(s: State, step: Step)
    requires Owned(s)
    ensures Owned(Apply(s, step))
  {
    if Possible(s, step) {
      match step
      case ParentEnds =>
      case TimeRunsOut =>
      case CallerEnters =>
      case ConnectReturns(conn, failed) =>
      case HandOver =>
      case WorkerSeesDone =>
      case CallerSeesDone =>
    }
  }

  lemma {:induction false} Always(steps: seq<Step>, n: nat)
    requires n <= |steps|
    ensures Owned(Execute(steps, n))
  {
    if n > 0 {
      Always(steps, n - 1);
      hide Owned;
      StepOwned(Execute(steps, n - 1), steps[n - 1]);
    }
  }

  /**
   * In every interleaving an opened connection is with exactly one owner: still offered by the worker,
   * returned to the caller and not closed, or closed once and never returned.
   */
  lemma UniqueOwner(steps: seq<Step>, n: nat)
    requires n <= |steps|
    ensures var s := Execute(steps, n);
            && s.opens <= 1
            && (s.opens == 1 ==>
                  || (InFlight(s) && !Returned(s) && s.closes == 0)
                  || (!InFlight(s) && Returned(s) && s.closes == 0)
                  || (!InFlight(s) && !Returned(s) && s.closes == 1))
            && (s.opens == 0 ==> !Returned(s) && s.closes == 0)
            && (s.caller.ReturnedError? ==> if s.caller.byParent then s.parentDone else s.timedOut)
  {
    Always(steps, n);
  }

  /** No connection is leaked: while the worker offers one, a step that settles its owner is possible. */
  lemma NeverStuck(steps: seq<Step>, n: nat)
    requires n <= |steps|
    ensures var s := Execute(steps, n);
            InFlight(s) ==>
              || (Possible(s, HandOver) && Returned(Apply(s, HandOver)))
              || (Possible(s, WorkerSeesDone) && Apply(s, WorkerSeesDone).closes == 1)
  {
    Always(steps, n);
  }

  /** Once owned by the caller or closed, a connection stays so, whatever happens next. */
  lemma {:induction false} OwnerIsFinal(steps: seq<Step>, n: nat, m: nat)
    requires n <= m <= |steps|
    ensures Returned(Execute(steps, n)) ==> Returned(Execute(steps, m)) && Execute(steps, m).closes == 0
    ensures Execute(steps, n).closes == 1 ==> Execute(steps, m).closes == 1 && !Returned(Execute(steps, m))
    decreases m
  {
    Always(steps, m);
    if n < m {
      OwnerIsFinal(steps, n, m - 1);
      Always(steps, m - 1);
    }
  }

  /** A caller that waits can return exactly when the context has ended or a result is offered. */
  lemma CallerLeaves(s: State, step: Step)
    ensures s.caller.Entering? ==>
              var t := Apply(s, step);
              step.CallerEnters? ==>
                if s.parentDone then t.caller == ReturnedError(true) && t.worker == s.worker
                else t.caller.Selecting? && t.worker.Connecting?
    ensures s.caller.Selecting? && step.CallerSeesDone? ==>
              Apply(s, step).caller == if CtxEnded(s) then ReturnedError(s.parentDone) else Selecting
    ensures s.caller.Selecting? && step.HandOver? ==>
              Apply(s, step).caller ==
              if s.worker.Offering? then ReturnedResult(s.worker.conn, s.worker.failed) else Selecting
    ensures !step.CallerEnters? && !step.CallerSeesDone? && !step.HandOver? ==> Apply(s, step).caller == s.caller
    ensures Apply(s, ParentEnds) == s.(parentDone := true) && Apply(s, TimeRunsOut) == s.(timedOut := true)
    ensures s.worker.Offering? && CtxEnded(s) ==>
              Apply(s, WorkerSeesDone) == s.(worker := Gone, closes := s.closes + if s.worker.conn then 1 else 0)
    ensures s.worker.Connecting? && step.ConnectReturns? ==>
              Apply(s, step).worker == Offering(step.conn, step.failed)
  {}

  predicate CtxEnded(s: State) {
    s.parentDone || s.timedOut || s.cancelled
  }

  /** The caller is returned the very result that connecting came to. */
  lemma {:induction false} ReturnsWhatWasOpened(steps: seq<Step>, n: nat) returns (k: nat)
    requires n <= |steps| && (Execute(steps, n).caller.ReturnedResult? || Execute(steps, n).worker.Offering?)
    ensures k < n && Execute(steps, k).worker.Connecting? && steps[k].ConnectReturns?
    ensures var s := Execute(steps, n);
            && (s.caller.ReturnedResult? ==> steps[k] == ConnectReturns(s.caller.conn, s.caller.failed))
            && (s.worker.Offering? ==> steps[k] == ConnectReturns(s.worker.conn, s.worker.failed))
    decreases n
  {
    hide Owned, Apply;
    HandedOnce(steps, n);
    assert n > 0;
    var before := Execute(steps, n - 1);
    HandedOnce(steps, n - 1);
    ResultFrom(before, steps[n - 1]);
    if before.caller.ReturnedResult? || before.worker.Offering? {
      k := ReturnsWhatWasOpened(steps, n - 1);
    } else {
      k := n - 1;
    }
  }

  // A result was returned or offered before, or connecting has just come to it.
  lemma ResultFrom(s: State, step: Step)
    requires s.caller.ReturnedResult? <==> s.worker.Handed?
    ensures var t := Apply(s, step);
            && (t.caller.ReturnedResult? ==>
                  t.caller == s.caller || s.worker == Offering(t.caller.conn, t.caller.failed))
            && (t.worker.Offering? ==>
                  t.worker == s.worker
                  || (s.worker.Connecting? && step == ConnectReturns(t.worker.conn, t.worker.failed)))
  {}

  lemma HandedOnce(steps: seq<Step>, n: nat)
    requires n <= |steps|
    ensures Execute(steps, n).caller.ReturnedResult? <==> Execute(steps, n).worker.Handed?
  {
    hide Execute;
    Always(steps, n);
  }

  /** An error names the parent's end exactly if the parent had ended when it was returned. */
  lemma ErrorNamesCause(steps: seq<Step>, n: nat)
    requires n < |steps|
    ensures var s, t := Execute(steps, n), Execute(steps, n + 1);
            t.caller.ReturnedError? && !s.caller.ReturnedError? ==>
              && (t.caller.byParent <==> s.parentDone) && (s.parentDone || s.timedOut)
  {
    Always(steps, n);
    Always(steps, n + 1);
  }
}
