/** The life of one configured device: attempts, sessions, and the pauses before reconnecting. */
module Device {
  import opened Bytes
  import opened Authentication
  import opened StreamRoundTrip
  import opened Session
  import opened Framing
  import Packet

  datatype Stage =
    | Trying
    | InSession(session: Session.State)
    | Pausing
    | Finished

  /** published is the device's entry in the store. */
  datatype DeviceState = DeviceState(stage: Stage, published: Published)

  datatype Step =
    | AttemptFails(ctxDone: bool)
    | SessionOpens(pending: seq<Pkt>, buffer: bytes, at: int, ctxDone: bool)
    | SessionHears(event: Event, ctxDone: bool)
    | DelayPasses
    | ContextEnds

  const INIT := DeviceState(Trying, Waiting)

  /** An attempt or session that failed: give up if the context has ended, otherwise mark WAIT and pause. */
  function Retry(published: Published, ctxDone: bool): DeviceState {
    if ctxDone then DeviceState(Finished, published) else DeviceState(Pausing, Waiting)
  }

  /** The stage after a session moved to s. */
  function Settle(s: Session.State, ctxDone: bool): DeviceState {
    match s.end
    case None => DeviceState(InSession(s), s.published)
    case Some(SessionCancelled) => DeviceState(Finished, s.published)
    case Some(_) => Retry(s.published, ctxDone)
  }

  function Apply(cfg: Config, d: DeviceState, step: Step): DeviceState {
    match (d.stage, step)
    case (Trying, AttemptFails(ctxDone)) => Retry(d.published, ctxDone)
    case (Trying, SessionOpens(pending, buffer, at, ctxDone)) => Settle(Start(cfg, pending, buffer, at), ctxDone)
    case (InSession(s), SessionHears(e, ctxDone)) => Settle(Session.Step(cfg, s, e), ctxDone)
    case (Pausing, DelayPasses) => d.(stage := Trying)
    case (Pausing, ContextEnds) => d.(stage := Finished)
    case _ => d
  }

  function Execute(cfg: Config, steps: seq<Step>, n: nat): DeviceState
    requires n <= |steps|
  {
    if n == 0 then INIT else Apply(cfg, Execute(cfg, steps, n - 1), steps[n - 1])
  }

  predicate Honest(cfg: Config, d: DeviceState) {
    match d.stage
    case InSession(s) => d.published == s.published && s.end.None? && Coherent(cfg, s)
    case Finished => true
    case _ => d.published == Waiting
  }

  lemma StartCoherent(cfg: Config, pending: seq<Pkt>, buffer: bytes, at: int)
    ensures Coherent(cfg, Start(cfg, pending, buffer, at))
  {
    hide Coherent, Start;
    RunCoherent(cfg, pending, buffer, at, [], 0);
  }

  lemma {:induction false} AlwaysHonest(cfg: Config, steps: seq<Step>, n: nat)
    requires n <= |steps|
    ensures Honest(cfg, Execute(cfg, steps, n))
  {
    hide Coherent, Session.Step, Start;
    if n > 0 {
      AlwaysHonest(cfg, steps, n - 1);
      match (Execute(cfg, steps, n - 1).stage, steps[n - 1])
      case (Trying, SessionOpens(pending, buffer, at, _)) => StartCoherent(cfg, pending, buffer, at);
      case (InSession(s), SessionHears(e, _)) => StepCoherent(cfg, s, e);
      case _ =>
    }
  }

  /**
   * Through any number of reconnections, a device that has not been given up shows a live status only
   * during a session, and then from that session's own reports; trying and pausing always show WAIT.
   */
  lemma LiveOnlyFromThisSession(cfg: Config, steps: seq<Step>, n: nat)
    requires n <= |steps|
    ensures var d := Execute(cfg, steps, n);
            Status(d.published) != "WAIT" && !d.stage.Finished? ==>
              && d.stage.InSession? && !d.stage.session.isStale && d.stage.session.reports != []
              && d.published == LiveVars(cfg, d.stage.session.latest)
              && KnowsLast(d.stage.session.latest, d.stage.session.reports)
  {
    hide KnowsLast, LiveVars, Execute;
    AlwaysHonest(cfg, steps, n);
    StatusWaits(Execute(cfg, steps, n).published);
  }

  /** The session that a step opens or moves on, as that step leaves it. */
  function Reached(cfg: Config, d: DeviceState, step: Step): Option<Session.State> {
    match (d.stage, step)
    case (Trying, SessionOpens(pending, buffer, at, _)) => Some(Start(cfg, pending, buffer, at))
    case (InSession(s), SessionHears(e, _)) => Some(Session.Step(cfg, s, e))
    case _ => None
  }

  /**
   * A device that is given up keeps what it showed: the last session's status if a session was ended with
   * it, and WAIT if it was given up while trying or pausing. Nothing changes it afterwards.
   */
  lemma {:induction false} GivenUpKeepsStatus(cfg: Config, steps: seq<Step>, m: nat, n: nat)
    requires m < n <= |steps|
    requires !Execute(cfg, steps, m).stage.Finished? && Execute(cfg, steps, m + 1).stage.Finished?
    ensures Execute(cfg, steps, n).stage.Finished?
    ensures Execute(cfg, steps, n).published ==
            match Reached(cfg, Execute(cfg, steps, m), steps[m])
            case Some(s) => s.published
            case None => Waiting
    decreases n
  {
    hide Coherent, Session.Step, Start;
    if n == m + 1 {
      AlwaysHonest(cfg, steps, m);
    } else {
      GivenUpKeepsStatus(cfg, steps, m, n - 1);
    }
  }

  /** Such a status can be live: a reporting packet, then the end of the context during the session. */
  lemma LiveWhenGivenUp(p: Pkt) returns (cfg: Config, steps: seq<Step>)
    ensures steps == [SessionOpens([p], [], 0, false), SessionHears(Cancel, true)]
    ensures Execute(cfg, steps, 2).stage.Finished? && Status(Execute(cfg, steps, 2).published) != "WAIT"
  {
    var charge := NO_TELEMETRY.(charge := Some(50));
    cfg := Config(Passthrough, false, 100, 10, 0, 0, (ps: seq<Pkt>) => Reading(Some(charge)));
    steps := [SessionOpens([p], [], 0, false), SessionHears(Cancel, true)];
    var s := Process(cfg, Session.State([], 0, None, true, NO_TELEMETRY, Waiting, [], [], None), p, 0);
    assert ProcessAll(cfg, s, [p][1..], 0) == s;
    assert Start(cfg, [p], [], 0) == s;
    assert Execute(cfg, steps, 1) == DeviceState(InSession(s), s.published);
    StatusWaits(s.published);
  }

  // ----- Where a device goes from each stage -----

  /** The session has just moved to s: it lasts, it was cancelled, or it failed and is tried again. */
  predicate Settled(d: DeviceState, s: Session.State, ctxDone: bool) {
    && (s.end.None? ==> d == DeviceState(InSession(s), s.published))
    && (s.end == Some(SessionCancelled) ==> d == DeviceState(Finished, s.published))
    && (s.end.Some? && s.end != Some(SessionCancelled) ==>
          d == if ctxDone then DeviceState(Finished, s.published) else DeviceState(Pausing, Waiting))
  }

  /** Every stage is left by what can happen in it, and for the stage that this leads to. */
  lemma StageDecides(cfg: Config, d: DeviceState, step: Step)
    ensures d.stage.Trying? && step.AttemptFails? ==>
              Apply(cfg, d, step) ==
              if step.ctxDone then DeviceState(Finished, d.published) else DeviceState(Pausing, Waiting)
    ensures d.stage.Trying? && step.SessionOpens? ==>
              Settled(Apply(cfg, d, step), Start(cfg, step.pending, step.buffer, step.at), step.ctxDone)
    ensures d.stage.InSession? && step.SessionHears? ==>
              Settled(Apply(cfg, d, step), Session.Step(cfg, d.stage.session, step.event), step.ctxDone)
    ensures d.stage.Pausing? && step.DelayPasses? ==> Apply(cfg, d, step) == DeviceState(Trying, d.published)
    ensures d.stage.Pausing? && step.ContextEnds? ==> Apply(cfg, d, step) == DeviceState(Finished, d.published)
    ensures d.stage.Finished? ==> Apply(cfg, d, step) == d
  {
    hide Session.Step, Start;
  }

  /** What only the end of the context makes possible. */
  predicate ContextOver(step: Step) {
    match step
    case AttemptFails(ctxDone) => ctxDone
    case SessionOpens(_, _, _, ctxDone) => ctxDone
    case SessionHears(event, ctxDone) => ctxDone || event.Cancel?
    case DelayPasses => false
    case ContextEnds => true
  }

  /** So a device is only ever given up when its context has ended; until then it keeps trying. */
  lemma {:induction false} GivenUpOnlyAtTheEnd(cfg: Config, steps: seq<Step>, n: nat)
    requires n <= |steps| && forall k :: 0 <= k < n ==> !ContextOver(steps[k])
    ensures !Execute(cfg, steps, n).stage.Finished?
    decreases n
  {
    hide ContextOver;
    if n > 0 {
      GivenUpOnlyAtTheEnd(cfg, steps, n - 1);
      AlwaysHonest(cfg, steps, n - 1);
      StillTried(cfg, Execute(cfg, steps, n - 1), steps[n - 1]);
    }
  }

  lemma StillTried(cfg: Config, d: DeviceState, step: Step)
    requires !d.stage.Finished? && !ContextOver(step)
    requires d.stage.InSession? ==> d.stage.session.end.None?
    ensures !Apply(cfg, d, step).stage.Finished?
  {
    hide Session.Step, Start;
    match (d.stage, step)
    case (Trying, SessionOpens(pending, buffer, at, _)) => StartNotCancelled(cfg, pending, buffer, at);
    case (InSession(s), SessionHears(e, _)) => StepNotCancelled(cfg, s, e);
    case _ =>
  }

  // Only a cancellation ends a session as cancelled.
  lemma StepNotCancelled(cfg: Config, s: Session.State, e: Event)
    requires s.end.None? && !e.Cancel?
    ensures Session.Step(cfg, s, e).end != Some(SessionCancelled)
  {
    hide ReadPayloads, Scan;
    if e.Chunk? {
      var o := Scan(cfg.framing, s.buffer + e.data);
      if o.Done? {
        ReadingNotCancelled(cfg, s.(lastPacket := e.at, buffer := o.buffer), o.payloads, e.at);
      }
    }
  }

  lemma {:induction false} ReadingNotCancelled(cfg: Config, s: Session.State, payloads: seq<bytes>, at: int)
    requires s.end != Some(SessionCancelled)
    ensures ReadPayloads(cfg, s, payloads, at).end != Some(SessionCancelled)
    decreases |payloads|
  {
    hide Packet.Parse, IsAuthReply, AuthCode;
    if payloads != [] && s.end.None? {
      ReadingNotCancelled(cfg, ReadPayload(cfg, s, payloads[0], at), payloads[1..], at);
    }
  }

  lemma StartNotCancelled(cfg: Config, pending: seq<Pkt>, buffer: bytes, at: int)
    ensures Start(cfg, pending, buffer, at).end != Some(SessionCancelled)
  {
    hide ProcessAll;
    HandlingNotCancelled(cfg, Session.State(buffer, at, None, true, NO_TELEMETRY, Waiting, [], [], None), pending, at);
  }

  lemma {:induction false} HandlingNotCancelled(cfg: Config, s: Session.State, packets: seq<Pkt>, at: int)
    requires s.end != Some(SessionCancelled)
    ensures ProcessAll(cfg, s, packets, at).end != Some(SessionCancelled)
    decreases |packets|
  {
    if packets != [] && s.end.None? {
      HandlingNotCancelled(cfg, Process(cfg, s, packets[0], at), packets[1..], at);
    }
  }
}
