/** What a session publishes, in terms of the reports its handler made of the packets. */
module Published {
  import opened Bytes
  import opened Framing
  import opened Reassembly
  import opened StreamRoundTrip
  import opened Authentication
  import opened Session
  import opened FieldAge
  import Packet

  // ----- The status -----

  /** The last report of whether there is input power says that there is. */
  predicate OnMains(reports: seq<Report>) {
    match LastGiver(reports, InputPresent)
    case Some(k) => reports[k].telemetry.inputPresent == Some(true)
    case None => false
  }

  /** The last given charge or the last given runtime is at its limit or below. */
  predicate RunsLow(reports: seq<Report>, percent: int, seconds: int) {
    || (match LastGiver(reports, Charge)
        case Some(k) => reports[k].telemetry.charge.value <= percent
        case None => false)
    || (match LastGiver(reports, Runtime)
        case Some(k) => reports[k].telemetry.runtimeSeconds.value <= seconds
        case None => false)
  }

  /**
   * At every point of every session: the status is WAIT, or it says whether the device is on mains and
   * whether it runs low, by the last reports, and every field published is the last one reported.
   */
  lemma LiveStatus(cfg: Config, pending: seq<Pkt>, buffer: bytes, at: int, events: seq<Event>, n: nat)
    requires n <= |events|
    ensures var s := Run(cfg, Start(cfg, pending, buffer, at), events, n);
            Status(s.published) != "WAIT" ==>
              && Status(s.published) ==
                 (if OnMains(s.reports) then "OL" else "OB")
                 + (if RunsLow(s.reports, cfg.lowBatteryPercent, cfg.lowRuntimeSeconds) then " LB" else "")
              && s.published.Live? && FieldsLast(s.published.telemetry, s.reports)
  {
    hide Start, Run, KnowsLast, LastGiver;
    RunCoherent(cfg, pending, buffer, at, events, n);
    var s := Run(cfg, Start(cfg, pending, buffer, at), events, n);
    StatusWaits(s.published);
    if Status(s.published) != "WAIT" {
      KnownFields(s.latest, s.reports);
    }
  }

  /** Every field has the value of the last report that gave it; what none gave is absent. */
  predicate FieldsLast(t: Telemetry, reports: seq<Report>) {
    forall field ::
      match LastGiver(reports, field)
      case Some(k) => Gives(t, field) && Agree(t, reports[k].telemetry, field)
      case None => !Gives(t, field)
  }

  lemma KnownFields(latest: Telemetry, reports: seq<Report>)
    requires KnowsLast(latest, reports)
    ensures FieldsLast(latest, reports)
  {
    hide KnowsLast, LastGiver, Gives, Agree;
    forall field
      ensures match LastGiver(reports, field)
              case Some(k) => Gives(latest, field) && Agree(latest, reports[k].telemetry, field)
              case None => !Gives(latest, field)
    {
      KnownFromGiver(latest, reports, field);
    }
  }

  // ----- Which reports there are -----

  /** What the handler reads from a packet; a reading without any field is none. */
  function ReadingOf(h: Handled): seq<Telemetry> {
    match h
    case Reading(Some(t)) =>
      if t.charge.Some? || t.runtimeSeconds.Some? || t.inputPower.Some? || t.outputPower.Some? || t.inputPresent.Some?
      then [t]
      else []
    case _ => []
  }

  function Readings(cfg: Config, packets: seq<Pkt>): seq<Telemetry> {
    if packets == [] then []
    else Readings(cfg, packets[..|packets| - 1]) + ReadingOf(cfg.handler(packets))
  }

  function Telemetries(reports: seq<Report>): (ts: seq<Telemetry>)
    ensures |ts| == |reports|
  {
    seq(|reports|, i requires 0 <= i < |reports| => reports[i].telemetry)
  }

  /** The reports are the handler's readings, and a failing handler ends the session at once. */
  ghost predicate Accounted(cfg: Config, s: State) {
    && Telemetries(s.reports) == Readings(cfg, s.processed)
    && (forall k :: 0 < k < |s.processed| ==> !cfg.handler(s.processed[..k]).HandlerError?)
    && (s.end == Some(HandlerFailed) <==> s.processed != [] && cfg.handler(s.processed).HandlerError?)
  }

  lemma ProcessAccounted(cfg: Config, s: State, p: Pkt, at: int)
    requires Accounted(cfg, s) && s.end.None?
    ensures Accounted(cfg, Process(cfg, s, p, at))
  {
    hide LiveVars, Readings, Telemetries, ReadingOf;
    var h := cfg.handler(s.processed + [p]);
    ReadingsGrow(cfg, s.processed, p);
    ErrorsBefore(cfg, s.processed, p);
    ReadingIs(h);
    if h.Reading? && h.telemetry.Some? {
      TelemetriesGrow(s.reports, Report(h.telemetry.value, at));
    }
  }

  lemma ReadingsGrow(cfg: Config, packets: seq<Pkt>, p: Pkt)
    ensures Readings(cfg, packets + [p]) == Readings(cfg, packets) + ReadingOf(cfg.handler(packets + [p]))
  {
    hide ReadingOf;
    assert (packets + [p])[..|packets|] == packets;
  }

  lemma TelemetriesGrow(reports: seq<Report>, r: Report)
    ensures Telemetries(reports + [r]) == Telemetries(reports) + [r.telemetry]
  {}

  lemma ReadingIs(h: Handled)
    ensures ReadingOf(h) == if h.Reading? && h.telemetry.Some? && !h.telemetry.value.Empty() then [h.telemetry.value]
                            else []
  {}

  lemma ErrorsBefore(cfg: Config, packets: seq<Pkt>, p: Pkt)
    requires forall k :: 0 < k < |packets| ==> !cfg.handler(packets[..k]).HandlerError?
    requires packets == [] || !cfg.handler(packets).HandlerError?
    ensures forall k :: 0 < k < |packets + [p]| ==> !cfg.handler((packets + [p])[..k]).HandlerError?
  {
    forall k | 0 < k < |packets + [p]|
      ensures !cfg.handler((packets + [p])[..k]).HandlerError?
    {
      assert (packets + [p])[..k] == packets[..k];
      assert packets[..|packets|] == packets;
    }
  }

  lemma {:induction false} ProcessAllAccounted(cfg: Config, s: State, packets: seq<Pkt>, at: int)
    requires Accounted(cfg, s)
    ensures Accounted(cfg, ProcessAll(cfg, s, packets, at))
    decreases |packets|
  {
    hide Accounted, Process;
    if packets != [] && s.end.None? {
      ProcessAccounted(cfg, s, packets[0], at);
      ProcessAllAccounted(cfg, Process(cfg, s, packets[0], at), packets[1..], at);
    }
  }

  lemma {:induction false} ReadPayloadsAccounted(cfg: Config, s: State, payloads: seq<bytes>, at: int)
    requires Accounted(cfg, s)
    ensures Accounted(cfg, ReadPayloads(cfg, s, payloads, at))
    decreases |payloads|
  {
    hide Accounted, ReadPayload;
    if payloads != [] && s.end.None? {
      ReadPayloadAccounted(cfg, s, payloads[0], at);
      ReadPayloadsAccounted(cfg, ReadPayload(cfg, s, payloads[0], at), payloads[1..], at);
    }
  }

  lemma ReadPayloadAccounted(cfg: Config, s: State, payload: bytes, at: int)
    requires Accounted(cfg, s) && s.end.None?
    ensures Accounted(cfg, ReadPayload(cfg, s, payload, at))
  {
    hide Packet.Parse, Process, IsAuthReply, AuthCode, Readings, Telemetries;
    var r := Packet.Parse(payload, cfg.xorPayload);
    if r.Ok? {
      ProcessAccounted(cfg, s, r.value, at);
    }
  }

  lemma StepAccounted(cfg: Config, s: State, e: Event)
    requires Accounted(cfg, s)
    ensures Accounted(cfg, Step(cfg, s, e))
  {
    hide Readings, Telemetries, ReadPayloads, Scan;
    if s.end.None? && e.Chunk? {
      var o := Scan(cfg.framing, s.buffer + e.data);
      if o.Done? {
        ReadPayloadsAccounted(cfg, s.(lastPacket := e.at, buffer := o.buffer), o.payloads, e.at);
      }
    }
  }

  /** Over every session: one report for each reading with a field, in order, and none besides. */
  lemma {:induction false} RunAccounted(cfg: Config, pending: seq<Pkt>, buffer: bytes, at: int,
                                        events: seq<Event>, n: nat)
    requires n <= |events|
    ensures Accounted(cfg, Run(cfg, Start(cfg, pending, buffer, at), events, n))
    decreases n
  {
    hide Accounted, Step, ProcessAll;
    if n == 0 {
      var s0 := State(buffer, at, None, true, NO_TELEMETRY, Waiting, [], [], None);
      NothingAccounted(cfg, s0);
      ProcessAllAccounted(cfg, s0, pending, at);
    } else {
      RunAccounted(cfg, pending, buffer, at, events, n - 1);
      StepAccounted(cfg, Run(cfg, Start(cfg, pending, buffer, at), events, n - 1), events[n - 1]);
    }
  }

  lemma NothingAccounted(cfg: Config, s: State)
    requires s.reports == [] && s.processed == [] && s.end.None?
    ensures Accounted(cfg, s)
  {}

  // ----- One event -----

  /** What one payload does: nothing, a refusal with the device's code, or one more packet handled. */
  lemma PayloadDecides(cfg: Config, s: State, payload: bytes, at: int)
    ensures var r, t := Packet.Parse(payload, cfg.xorPayload), ReadPayload(cfg, s, payload, at);
            && (r.Err? ==> t == s)
            && (r.Ok? && FromAuth(r.value) ==>
                  t == if r.value.payload != [] && r.value.payload[0] != 0
                       then s.(end := Some(AuthRefused(r.value.payload[0]))) else s)
            && (r.Ok? && !FromAuth(r.value) ==>
                  t.processed == s.processed + [r.value] && t.buffer == s.buffer && t.lastPacket == s.lastPacket)
  {
    hide Packet.Parse, Process;
    var r := Packet.Parse(payload, cfg.xorPayload);
    if r.Ok? {
      ReplyIs(r.value);
      ProcessKeeps(cfg, s, r.value, at);
    }
  }

  lemma ProcessKeeps(cfg: Config, s: State, p: Pkt, at: int)
    ensures var t := Process(cfg, s, p, at);
            t.processed == s.processed + [p] && t.buffer == s.buffer && t.lastPacket == s.lastPacket
  {}

  /** Reports made between s and t are made at one time, and a status becomes live by them only. */
  predicate Grew(s: State, t: State, at: int) {
    && s.reports <= t.reports
    && (forall k :: |s.reports| <= k < |t.reports| ==> t.reports[k].at == at)
    && (|t.reports| > |s.reports| ==> !t.isStale)
    && (|t.reports| == |s.reports| ==> t.published == s.published && t.isStale == s.isStale)
  }

  lemma {:induction false} ProcessAllGrew(cfg: Config, s: State, packets: seq<Pkt>, at: int)
    ensures Grew(s, ProcessAll(cfg, s, packets, at), at)
    decreases |packets|
  {
    hide LiveVars;
    if packets != [] && s.end.None? {
      ProcessAllGrew(cfg, Process(cfg, s, packets[0], at), packets[1..], at);
    }
  }

  lemma {:induction false} ReadPayloadsGrew(cfg: Config, s: State, payloads: seq<bytes>, at: int)
    ensures Grew(s, ReadPayloads(cfg, s, payloads, at), at)
    decreases |payloads|
  {
    hide LiveVars, Packet.Parse, IsAuthReply, AuthCode;
    if payloads != [] && s.end.None? {
      ReadPayloadsGrew(cfg, ReadPayload(cfg, s, payloads[0], at), payloads[1..], at);
    }
  }

  /** A notification: its time is the last one heard, reports made of it bear it and make the status live. */
  lemma ChunkDecides(cfg: Config, s: State, data: bytes, at: int)
    requires s.end.None? && InUse(cfg.framing)
    ensures var t, o := Step(cfg, s, Chunk(data, at)), Scan(cfg.framing, s.buffer + data);
            t.lastPacket == at && Grew(s, t, at) && o.Done? && t.buffer == o.buffer
  {
    hide Scan, ReadPayloads, InUse;
    NeverFails(cfg.framing, s.buffer + data);
    var o := Scan(cfg.framing, s.buffer + data);
    var s1 := s.(lastPacket := at, buffer := o.buffer);
    ReadPayloadsGrew(cfg, s1, o.payloads, at);
    ReadPayloadsKeeps(cfg, s1, o.payloads, at);
  }

  /**
   * A tick: a live status is withdrawn if and only if the last report is as old as the stale timeout, and
   * otherwise stays what it was; a keep-alive that is due and cannot be written ends the session, and so
   * does a silence of two poll intervals; nothing else changes.
   */
  lemma TickDecides(cfg: Config, s: State, at: int, writeOk: bool)
    requires s.end.None? && Coherent(cfg, s)
    ensures var t := Step(cfg, s, Tick(at, writeOk));
            && (Status(t.published) == "WAIT" <==>
                Status(s.published) == "WAIT" || at - s.reports[|s.reports| - 1].at >= cfg.staleTimeout)
            && (Status(t.published) != "WAIT" ==> t.published == s.published)
            && (t.end == Some(WriteFailed) <==> at - s.lastPacket >= cfg.pollInterval && !writeOk)
            && (t.end == Some(IdleTimeout) <==>
                t.end != Some(WriteFailed) && at - s.lastPacket >= 2 * cfg.pollInterval)
            && (t.end.Some? ==> t.end.value in {WriteFailed, IdleTimeout})
            && t.(published := s.published, isStale := s.isStale, end := s.end) == s
  {
    hide KnowsLast, LiveVars, Status;
    StatusWaits(s.published);
    StatusWaits(Step(cfg, s, Tick(at, writeOk)).published);
  }

  /** The end of the context ends the session and changes nothing else; after its end nothing changes. */
  lemma CancelDecides(cfg: Config, s: State, e: Event)
    ensures s.end.None? ==> Step(cfg, s, Cancel) == s.(end := Some(SessionCancelled))
    ensures s.end.Some? ==> Step(cfg, s, e) == s
  {
    hide OnChunk, OnTick;
  }
}
