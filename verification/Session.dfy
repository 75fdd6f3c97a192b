/** The event loop of an authenticated session, and the loop that reconnects. */
module Session {
  import opened Bytes
  import opened Framing
  import opened Reassembly
  import opened StreamRoundTrip
  import opened Assemblers
  import opened Authentication
  import opened PacketTheorems
  import Handshake
  import Packet

  // ----- Telemetry -----

  datatype Telemetry = Telemetry(
    charge: Option<int>, runtimeSeconds: Option<int>, inputPower: Option<int>, outputPower: Option<int>,
    inputPresent: Option<bool>)
  {
    predicate Empty() {
      charge.None? && runtimeSeconds.None? && inputPower.None? && outputPower.None? && inputPresent.None?
    }

    function Merge(other: Telemetry): Telemetry {
      Telemetry(
        if other.charge.Some? then other.charge else charge,
        if other.runtimeSeconds.Some? then other.runtimeSeconds else runtimeSeconds,
        if other.inputPower.Some? then other.inputPower else inputPower,
        if other.outputPower.Some? then other.outputPower else outputPower,
        if other.inputPresent.Some? then other.inputPresent else inputPresent)
    }
  }

  const NO_TELEMETRY := Telemetry(None, None, None, None, None)

  /** What the handler of a profile makes of a packet, its replies written. */
  datatype Handled = HandlerError | Ignored | Reading(telemetry: Option<Telemetry>)

  /** The handler is given every packet so far, so that it may keep state of its own. */
  datatype Config = Config(
    framing: Framing, xorPayload: bool, pollInterval: int, staleTimeout: int,
    lowBatteryPercent: int, lowRuntimeSeconds: int, handler: seq<Pkt> -> Handled)

  // ----- What is published for the device -----

  datatype Published = Waiting | Live(online: bool, lowBattery: bool, telemetry: Telemetry)

  function Status(p: Published): string {
    match p
    case Waiting => "WAIT"
    case Live(online, low, _) => (if online then "OL" else "OB") + if low then " LB" else ""
  }

  predicate LowBattery(cfg: Config, t: Telemetry) {
    || (t.charge.Some? && t.charge.value <= cfg.lowBatteryPercent)
    || (t.runtimeSeconds.Some? && t.runtimeSeconds.value <= cfg.lowRuntimeSeconds)
  }

  function LiveVars(cfg: Config, t: Telemetry): Published {
    Live(t.inputPresent == Some(true), LowBattery(cfg, t), t)
  }

  datatype Report = Report(telemetry: Telemetry, at: int)

  datatype State = State(
    buffer: bytes, lastPacket: int, lastFresh: Option<int>, isStale: bool, latest: Telemetry,
    published: Published, processed: seq<Pkt>, reports: seq<Report>, end: Option<Reason>)

  predicate StaleAfter(lastFresh: Option<int>, timeout: int, now: int) {
    lastFresh.None? || now - lastFresh.value >= timeout
  }

  // ----- One step of the loop -----

  datatype Event = Chunk(data: bytes, at: int) | Tick(at: int, writeOk: bool) | Cancel

  function Process(cfg: Config, s: State, p: Pkt, at: int): State {
    var s1 := s.(processed := s.processed + [p]);
    match cfg.handler(s1.processed)
    case HandlerError => s1.(end := Some(HandlerFailed))
    case Ignored => s1
    case Reading(t) =>
      if t.None? || t.value.Empty() then s1
      else
        var merged := s1.latest.Merge(t.value);
        s1.(lastFresh := Some(at), isStale := false, latest := merged,
            reports := s1.reports + [Report(t.value, at)], published := LiveVars(cfg, merged))
  }

  function ProcessAll(cfg: Config, s: State, packets: seq<Pkt>, at: int): State
    decreases |packets|
  {
    if packets == [] || s.end.Some? then s else ProcessAll(cfg, Process(cfg, s, packets[0], at), packets[1..], at)
  }

  function ReadPayload(cfg: Config, s: State, payload: bytes, at: int): State {
    match Packet.Parse(payload, cfg.xorPayload)
    case Err(_) => s
    case Ok(p) =>
      if !IsAuthReply(p) then Process(cfg, s, p, at)
      else if AuthCode(p.payload) != 0 then s.(end := Some(AuthRefused(AuthCode(p.payload))))
      else s
  }

  function ReadPayloads(cfg: Config, s: State, payloads: seq<bytes>, at: int): State
    decreases |payloads|
  {
    if payloads == [] || s.end.Some? then s
    else ReadPayloads(cfg, ReadPayload(cfg, s, payloads[0], at), payloads[1..], at)
  }

  // One turn of reading payloads, and its end.
  lemma ReadPayloadsTurn(cfg: Config, s: State, payloads: seq<bytes>, i: nat, at: int)
    requires s.end.None? && i < |payloads|
    ensures ReadPayloads(cfg, s, payloads[i..], at) ==
            ReadPayloads(cfg, ReadPayload(cfg, s, payloads[i], at), payloads[i + 1..], at)
  {
    hide ReadPayload;
    assert payloads[i..][1..] == payloads[i + 1..];
  }

  lemma ReadPayloadsEnd(cfg: Config, s: State, payloads: seq<bytes>, at: int)
    requires payloads == [] || s.end.Some?
    ensures ReadPayloads(cfg, s, payloads, at) == s
  {}

  function OnChunk(cfg: Config, s: State, data: bytes, at: int): State {
    var o := Scan(cfg.framing, s.buffer + data);
    var s1 := s.(lastPacket := at, buffer := KeptBuffer(o));
    match o
    case Failed(error) => s1.(end := Some(ReassemblyFailed(error)))
    case Done(payloads, _) => ReadPayloads(cfg, s1, payloads, at)
  }

  function OnTick(cfg: Config, s: State, at: int, writeOk: bool): State {
    var s1 :=
      if StaleAfter(s.lastFresh, cfg.staleTimeout, at) && !s.isStale then s.(isStale := true, published := Waiting)
      else s;
    if at - s.lastPacket >= cfg.pollInterval && !writeOk then s1.(end := Some(WriteFailed))
    else if at - s.lastPacket >= 2 * cfg.pollInterval then s1.(end := Some(IdleTimeout))
    else s1
  }

  function Step(cfg: Config, s: State, e: Event): State {
    if s.end.Some? then s
    else
      match e
      case Chunk(data, at) => OnChunk(cfg, s, data, at)
      case Tick(at, writeOk) => OnTick(cfg, s, at, writeOk)
      case Cancel => s.(end := Some(SessionCancelled))
  }

  /** A session starts with what authentication left: the packets it did not consume and its buffer. */
  function Start(cfg: Config, pending: seq<Pkt>, buffer: bytes, at: int): State {
    ProcessAll(cfg, State(buffer, at, None, true, NO_TELEMETRY, Waiting, [], [], None), pending, at)
  }

  function Run(cfg: Config, s: State, events: seq<Event>, n: nat): State
    requires n <= |events|
  {
    if n == 0 then s else Step(cfg, Run(cfg, s, events, n - 1), events[n - 1])
  }

  // ----- Freshness over whole sessions -----

  /** The last known value in a sequence of observations. */
  function LastKnown<T>(xs: seq<Option<T>>): Option<T> {
    if xs == [] then None
    else if xs[|xs| - 1].Some? then xs[|xs| - 1]
    else LastKnown(xs[..|xs| - 1])
  }

  function Observed<T>(reports: seq<Report>, field: Telemetry -> Option<T>): seq<Option<T>> {
    seq(|reports|, i requires 0 <= i < |reports| => field(reports[i].telemetry))
  }

  function ChargeOf(t: Telemetry): Option<int> { t.charge }
  function RuntimeOf(t: Telemetry): Option<int> { t.runtimeSeconds }
  function InputPowerOf(t: Telemetry): Option<int> { t.inputPower }
  function OutputPowerOf(t: Telemetry): Option<int> { t.outputPower }
  function InputPresentOf(t: Telemetry): Option<bool> { t.inputPresent }

  /** What the session knows is, field by field, the last value any of its reports gave. */
  predicate KnowsLast(latest: Telemetry, reports: seq<Report>) {
    && latest.charge == LastKnown(Observed(reports, ChargeOf))
    && latest.runtimeSeconds == LastKnown(Observed(reports, RuntimeOf))
    && latest.inputPower == LastKnown(Observed(reports, InputPowerOf))
    && latest.outputPower == LastKnown(Observed(reports, OutputPowerOf))
    && latest.inputPresent == LastKnown(Observed(reports, InputPresentOf))
  }

  predicate Coherent(cfg: Config, s: State) {
    && (Status(s.published) == "WAIT" <==> s.isStale)
    && (!s.isStale ==> s.reports != [] && s.published == LiveVars(cfg, s.latest))
    && s.lastFresh == (if s.reports == [] then None else Some(s.reports[|s.reports| - 1].at))
    && KnowsLast(s.latest, s.reports)
  }

  lemma StatusWaits(p: Published)
    ensures Status(p) == "WAIT" <==> p.Waiting?
  {
    if p.Live? {
      assert Status(p)[0] == 'O' && "WAIT"[0] == 'W';
    }
  }

  lemma LastKnownGrows<T>(reports: seq<Report>, r: Report, field: Telemetry -> Option<T>)
    ensures LastKnown(Observed(reports + [r], field)) ==
            if field(r.telemetry).Some? then field(r.telemetry) else LastKnown(Observed(reports, field))
  {
    var xs, ys := Observed(reports, field), Observed(reports + [r], field);
    assert ys == xs + [field(r.telemetry)];
    assert ys[..|ys| - 1] == xs;
  }

  lemma KnowsLastGrows(latest: Telemetry, reports: seq<Report>, r: Report)
    requires KnowsLast(latest, reports)
    ensures KnowsLast(latest.Merge(r.telemetry), reports + [r])
  {
    hide LastKnown, Observed;
    LastKnownGrows(reports, r, ChargeOf);
    LastKnownGrows(reports, r, RuntimeOf);
    LastKnownGrows(reports, r, InputPowerOf);
    LastKnownGrows(reports, r, OutputPowerOf);
    LastKnownGrows(reports, r, InputPresentOf);
  }

  lemma ProcessCoherent(cfg: Config, s: State, p: Pkt, at: int)
    requires Coherent(cfg, s)
    ensures Coherent(cfg, Process(cfg, s, p, at))
  {
    hide KnowsLast, Status;
    var r := cfg.handler(s.processed + [p]);
    StatusWaits(Process(cfg, s, p, at).published);
    if r.Reading? && r.telemetry.Some? {
      KnowsLastGrows(s.latest, s.reports, Report(r.telemetry.value, at));
    }
  }

  lemma {:induction false} ProcessAllCoherent(cfg: Config, s: State, packets: seq<Pkt>, at: int)
    requires Coherent(cfg, s)
    ensures Coherent(cfg, ProcessAll(cfg, s, packets, at))
    decreases |packets|
  {
    hide Coherent, Process;
    if packets != [] && s.end.None? {
      ProcessCoherent(cfg, s, packets[0], at);
      ProcessAllCoherent(cfg, Process(cfg, s, packets[0], at), packets[1..], at);
    }
  }

  lemma {:induction false} ReadPayloadsCoherent(cfg: Config, s: State, payloads: seq<bytes>, at: int)
    requires Coherent(cfg, s)
    ensures Coherent(cfg, ReadPayloads(cfg, s, payloads, at))
    decreases |payloads|
  {
    hide Status, KnowsLast, Process, Packet.Parse;
    if payloads != [] && s.end.None? {
      var r := Packet.Parse(payloads[0], cfg.xorPayload);
      if r.Ok? {
        ProcessCoherent(cfg, s, r.value, at);
      }
      ReadPayloadsCoherent(cfg, ReadPayload(cfg, s, payloads[0], at), payloads[1..], at);
    }
  }

  lemma StepCoherent(cfg: Config, s: State, e: Event)
    requires Coherent(cfg, s)
    ensures Coherent(cfg, Step(cfg, s, e))
  {
    hide Status, KnowsLast, ReadPayloads, Scan;
    StatusWaits(Waiting);
    if s.end.None? && e.Chunk? {
      var o := Scan(cfg.framing, s.buffer + e.data);
      if o.Done? {
        ReadPayloadsCoherent(cfg, s.(lastPacket := e.at, buffer := o.buffer), o.payloads, e.at);
      }
    }
  }

  /** When a device was last heard: the time of the last notification among the first n events. */
  function LastHeard(start: int, events: seq<Event>, n: nat): int
    requires n <= |events|
  {
    if n == 0 then start
    else if events[n - 1].Chunk? then events[n - 1].at
    else LastHeard(start, events, n - 1)
  }

  lemma {:induction false} ReadPayloadsKeeps(cfg: Config, s: State, payloads: seq<bytes>, at: int)
    ensures ReadPayloads(cfg, s, payloads, at).lastPacket == s.lastPacket
    ensures ReadPayloads(cfg, s, payloads, at).buffer == s.buffer
    decreases |payloads|
  {
    hide Packet.Parse;
    if payloads != [] && s.end.None? {
      ReadPayloadsKeeps(cfg, ReadPayload(cfg, s, payloads[0], at), payloads[1..], at);
    }
  }

  lemma {:induction false} ProcessAllKeeps(cfg: Config, s: State, packets: seq<Pkt>, at: int)
    ensures ProcessAll(cfg, s, packets, at).lastPacket == s.lastPacket
    ensures ProcessAll(cfg, s, packets, at).buffer == s.buffer
    decreases |packets|
  {
    if packets != [] && s.end.None? {
      ProcessAllKeeps(cfg, Process(cfg, s, packets[0], at), packets[1..], at);
    }
  }

  lemma {:induction false} RunCoherent(cfg: Config, pending: seq<Pkt>, buffer: bytes, at: int,
                                       events: seq<Event>, n: nat)
    requires n <= |events|
    ensures var s := Run(cfg, Start(cfg, pending, buffer, at), events, n);
            Coherent(cfg, s) && (s.end.None? ==> s.lastPacket == LastHeard(at, events, n))
    decreases n
  {
    hide Coherent, ProcessAll, ReadPayloads, Scan;
    if n == 0 {
      var s0 := State(buffer, at, None, true, NO_TELEMETRY, Waiting, [], [], None);
      FreshSessionCoherent(cfg, s0);
      ProcessAllCoherent(cfg, s0, pending, at);
      ProcessAllKeeps(cfg, s0, pending, at);
    } else {
      var s, e := Run(cfg, Start(cfg, pending, buffer, at), events, n - 1), events[n - 1];
      RunCoherent(cfg, pending, buffer, at, events, n - 1);
      StepCoherent(cfg, s, e);
      if s.end.None? && e.Chunk? {
        var o := Scan(cfg.framing, s.buffer + e.data);
        if o.Done? {
          ReadPayloadsKeeps(cfg, s.(lastPacket := e.at, buffer := o.buffer), o.payloads, e.at);
        }
      }
    }
  }

  lemma FreshSessionCoherent(cfg: Config, s: State)
    requires s.isStale && s.published == Waiting && s.latest == NO_TELEMETRY && s.reports == [] && s.lastFresh == None
    ensures Coherent(cfg, s)
  {
    StatusWaits(Waiting);
  }

  /**
   * At every point of every session the status is WAIT exactly when the readings are stale and live values
   * are the last known ones field by field. Right after a tick with a live status the latest report is
   * younger than the stale timeout; each field may be older, see module FieldAge. The session goes on
   * exactly when it was heard within twice the poll interval and any keep-alive due was written.
   */
  lemma Freshness(cfg: Config, pending: seq<Pkt>, buffer: bytes, at: int, events: seq<Event>, n: nat)
    requires 0 < n <= |events|
    ensures var s := Run(cfg, Start(cfg, pending, buffer, at), events, n);
            Coherent(cfg, s)
    ensures var before := Run(cfg, Start(cfg, pending, buffer, at), events, n - 1);
            var s, e := Run(cfg, Start(cfg, pending, buffer, at), events, n), events[n - 1];
            before.end.None? && e.Tick? ==>
              && (Status(s.published) != "WAIT" ==>
                    s.reports != [] && e.at - s.reports[|s.reports| - 1].at < cfg.staleTimeout)
              && var silence := e.at - LastHeard(at, events, n);
                 s.end.None? <==> silence < 2 * cfg.pollInterval && (silence >= cfg.pollInterval ==> e.writeOk)
  {
    hide Status, KnowsLast, LiveVars, Start, ReadPayloads, Scan;
    RunCoherent(cfg, pending, buffer, at, events, n);
    RunCoherent(cfg, pending, buffer, at, events, n - 1);
  }

  // ----- Nothing is lost or repeated between authentication and the event loop -----

  function Notified(e: Event): bytes {
    if e.Chunk? then e.data else []
  }

  /** The packets handled so far are the first of the stream's packets, and all of them while the session lasts. */
  predicate Tracks(cfg: Config, s: State, stream: bytes) {
    var packets := NonAuth(PacketsAfter(cfg.framing, cfg.xorPayload, stream));
    && Scan(cfg.framing, stream).Done?
    && s.processed <= packets
    && (s.end.None? ==> s.processed == packets && s.buffer == Scan(cfg.framing, stream).buffer)
  }

  lemma {:induction false} ProcessAllIs(cfg: Config, s: State, packets: seq<Pkt>, at: int)
    requires s.end.None?
    ensures var s' := ProcessAll(cfg, s, packets, at);
            && s'.processed <= s.processed + packets
            && (s'.end.None? ==> s'.processed == s.processed + packets)
    decreases |packets|
  {
    if packets != [] {
      var s1 := Process(cfg, s, packets[0], at);
      assert s.processed + packets == s1.processed + packets[1..];
      if s1.end.None? {
        ProcessAllIs(cfg, s1, packets[1..], at);
      }
    } else {
      assert s.processed + [] == s.processed;
    }
  }

  /** The packet a payload hands to the handler, if any. */
  function Handed(payload: bytes, xorPayload: bool): seq<Pkt> {
    match Packet.Parse(payload, xorPayload)
    case Ok(p) => if IsAuthReply(p) then [] else [p]
    case Err(_) => []
  }

  lemma ReadPayloadIs(cfg: Config, s: State, payload: bytes, at: int)
    ensures ReadPayload(cfg, s, payload, at).processed == s.processed + Handed(payload, cfg.xorPayload)
  {
    hide Packet.Parse, IsAuthReply;
    assert s.processed + [] == s.processed;
  }

  lemma {:induction false} ReadPayloadsIs(cfg: Config, s: State, payloads: seq<bytes>, at: int)
    requires s.end.None?
    ensures var s', packets := ReadPayloads(cfg, s, payloads, at), NonAuth(Parsed(payloads, cfg.xorPayload));
            && s'.processed <= s.processed + packets
            && (s'.end.None? ==> s'.processed == s.processed + packets)
    decreases |payloads|
  {
    hide ReadPayload, Handed, NonAuth;
    if payloads == [] {
      NoPackets();
      assert s.processed + [] == s.processed;
    } else {
      hide Parsed;
      var s1 := ReadPayload(cfg, s, payloads[0], at);
      var later := NonAuth(Parsed(payloads[1..], cfg.xorPayload));
      FirstPacket(payloads, cfg.xorPayload);
      ReadPayloadIs(cfg, s, payloads[0], at);
      Regroup(s.processed, Handed(payloads[0], cfg.xorPayload), later);
      if s1.end.None? {
        ReadPayloadsIs(cfg, s1, payloads[1..], at);
      }
    }
  }

  lemma Regroup(a: seq<Pkt>, b: seq<Pkt>, c: seq<Pkt>)
    ensures a + (b + c) == (a + b) + c
    ensures a + b <= a + (b + c)
  {}

  lemma FirstPacket(payloads: seq<bytes>, xorPayload: bool)
    requires payloads != []
    ensures NonAuth(Parsed(payloads, xorPayload)) ==
            Handed(payloads[0], xorPayload) + NonAuth(Parsed(payloads[1..], xorPayload))
  {
    hide Packet.Parse, IsAuthReply, FromAuth;
    var later := Parsed(payloads[1..], xorPayload);
    match Packet.Parse(payloads[0], xorPayload)
    case Ok(p) =>
      ReplyIs(p);
      assert ([p] + later)[1..] == later;
    case Err(_) =>
  }

  // One more notification extends the stream's packets.
  lemma StreamGrows(f: Framing, xorPayload: bool, stream: bytes, data: bytes)
    requires InUse(f) && Scan(f, stream).Done?
    ensures var o := Scan(f, Scan(f, stream).buffer + data);
            && o.Done? && Scan(f, stream + data).Done?
            && Scan(f, stream + data).buffer == o.buffer
            && NonAuth(PacketsAfter(f, xorPayload, stream + data)) ==
               NonAuth(PacketsAfter(f, xorPayload, stream)) + NonAuth(Parsed(o.payloads, xorPayload))
  {
    hide Scan, Parsed, NonAuth, PacketsAfter;
    NeverFails(f, Scan(f, stream).buffer + data);
    RoundRead(f, xorPayload, stream, data);
    var o := Scan(f, Scan(f, stream).buffer + data);
    NonAuthConcat(PacketsAfter(f, xorPayload, stream), Parsed(o.payloads, xorPayload));
  }

  lemma StepTracks(cfg: Config, s: State, stream: bytes, e: Event)
    requires InUse(cfg.framing) && Tracks(cfg, s, stream)
    ensures Tracks(cfg, Step(cfg, s, e), stream + Notified(e))
  {
    hide Scan, Parsed, NonAuth, PacketsAfter, ReadPayloads, InUse;
    assert stream + [] == stream;
    if e.Chunk? {
      StreamGrows(cfg.framing, cfg.xorPayload, stream, e.data);
      if s.end.None? {
        var o := Scan(cfg.framing, s.buffer + e.data);
        var s1 := s.(lastPacket := e.at, buffer := o.buffer);
        ReadPayloadsIs(cfg, s1, o.payloads, e.at);
        ReadPayloadsKeeps(cfg, s1, o.payloads, e.at);
      }
    }
  }

  lemma {:induction false} RunTracks(cfg: Config, s: State, stream: bytes, events: seq<Event>, n: nat)
    requires InUse(cfg.framing) && Tracks(cfg, s, stream) && n <= |events|
    ensures Tracks(cfg, Run(cfg, s, events, n), stream + Received(Notified, events, n))
    decreases n
  {
    hide Tracks, Step;
    if n == 0 {
      assert stream + [] == stream;
    } else {
      var e := events[n - 1];
      RunTracks(cfg, s, stream, events, n - 1);
      StepTracks(cfg, Run(cfg, s, events, n - 1), stream + Received(Notified, events, n - 1), e);
      assert stream + Received(Notified, events, n) == (stream + Received(Notified, events, n - 1)) + Notified(e);
    }
  }

  /**
   * From the first byte given to the session's assembler: the packets handled are exactly the stream's
   * packets that are not authentication replies, each once and in order, however the stream is cut and
   * wherever authentication ended.
   */
  lemma HandOff(cfg: Config, auth: seq<Handshake.Event>, pending: seq<Pkt>, kept: bytes, used: nat,
                at: int, events: seq<Event>, n: nat)
    requires InUse(cfg.framing) && n <= |events|
    requires Authenticate(cfg.framing, cfg.xorPayload, [], auth, 0) == AuthDone(pending, kept, used)
    ensures used <= |auth|
    ensures Tracks(cfg, Run(cfg, Start(cfg, pending, kept, at), events, n),
                   Received(Handshake.Notified, auth, used) + Received(Notified, events, n))
  {
    hide Scan, PacketsAfter, NonAuth, Authenticate, ProcessAll, Run, InUse;
    NothingRead(cfg.framing, cfg.xorPayload, auth);
    AuthenticateIs(cfg.framing, cfg.xorPayload, [], auth, 0);
    var s0 := State(kept, at, None, true, NO_TELEMETRY, Waiting, [], [], None);
    ProcessAllIs(cfg, s0, pending, at);
    ProcessAllKeeps(cfg, s0, pending, at);
    assert [] + pending == pending;
    RunTracks(cfg, Start(cfg, pending, kept, at), Received(Handshake.Notified, auth, used), events, n);
  }

  lemma NothingRead(f: Framing, xorPayload: bool, auth: seq<Handshake.Event>)
    ensures StillSilent(f, xorPayload, [], auth, 0)
  {
    EmptySettled(f);
  }

  /**
   * From the device's packets to the handler: if the bytes received so far are the frames of the packets
   * the device sent, the session has handled exactly those that are not replies, and holds no bytes.
   */
  lemma DeviceToHandler(cfg: Config, ps: seq<Pkt>, ws: seq<bytes>, ms: seq<bytes>,
                        auth: seq<Handshake.Event>, pending: seq<Pkt>, kept: bytes, used: nat,
                        at: int, events: seq<Event>, n: nat)
    requires InUse(cfg.framing) && n <= |events| && used <= |auth|
    requires Sent(cfg.framing, AllMasked(ps, cfg.xorPayload), ws, ms)
    requires forall i :: 0 <= i < |ps| ==> Survives(ps[i])
    requires Authenticate(cfg.framing, cfg.xorPayload, [], auth, 0) == AuthDone(pending, kept, used)
    requires Received(Handshake.Notified, auth, used) + Received(Notified, events, n) == Flatten(ws)
    requires Run(cfg, Start(cfg, pending, kept, at), events, n).end.None?
    ensures var s := Run(cfg, Start(cfg, pending, kept, at), events, n);
            && s.processed == NonAuth(AllDefaulted(ps))
            && s.buffer == []
  {
    hide Scan, Authenticate, Start, Run, InUse, Sent, NonAuth, Parsed, FeedAll;
    var stream := Flatten(ws);
    assert Flatten([stream]) == stream + Flatten([]) == stream;
    EndToEnd(cfg.framing, ps, cfg.xorPayload, ws, ms, [stream]);
    EmptySettled(cfg.framing);
    ChunkingInvariance(cfg.framing, [], [stream]);
    assert [] + stream == stream;
    HandOff(cfg, auth, pending, kept, used, at, events, n);
  }

  // ----- The session object -----

  class DeviceSession {
    const cfg: Config
    const asm: FrameAssembler
    var lastPacket: int
    var lastFresh: Option<int>
    var isStale: bool
    var latest: Telemetry
    var published: Published
    var processed: seq<Pkt>
    var end: Option<Reason>
    ghost var reports: seq<Report>

    ghost predicate Valid()
      reads this, asm.Object()
    {
      asm.Object() != this && asm.Valid() && asm.Framing() == cfg.framing
    }

    ghost function Abs(): State
      reads this, asm.Object()
    {
      State(asm.Buffer(), lastPacket, lastFresh, isStale, latest, published, processed, reports, end)
    }

    constructor (cfg: Config, asm: FrameAssembler, now: int)
      requires asm.Valid() && asm.Framing() == cfg.framing
      ensures Valid() && this.cfg == cfg && this.asm == asm
      ensures Abs() == Start(cfg, [], asm.Buffer(), now)
    {
      this.cfg, this.asm := cfg, asm;
      lastPacket, lastFresh, isStale, latest := now, None, true, NO_TELEMETRY;
      published, processed, end, reports := Waiting, [], None, [];
    }

    method ProcessPacket(packet: Pkt, now: int)
      requires Valid() && end.None?
      modifies this
      ensures Valid() && Abs() == Process(cfg, old(Abs()), packet, now)
    {
      processed := processed + [packet];
      var handled := cfg.handler(processed);
      if handled.HandlerError? {
        end := Some(HandlerFailed);
        return;
      }
      if handled.Ignored? {
        return;
      }
      if handled.telemetry.None? || handled.telemetry.value.Empty() {
        return;
      }
      lastFresh := Some(now);
      isStale := false;
      latest := latest.Merge(handled.telemetry.value);
      reports := reports + [Report(handled.telemetry.value, now)];
      published := LiveVars(cfg, latest);
    }

    method ProcessPending(pending: seq<Pkt>, now: int)
      requires Valid() && end.None?
      modifies this
      ensures Valid() && Abs() == ProcessAll(cfg, old(Abs()), pending, now)
    {
      hide Process;
      assert pending[0..] == pending;
      for i := 0 to |pending|
        invariant Valid() && end.None?
        invariant ProcessAll(cfg, old(Abs()), pending, now) == ProcessAll(cfg, Abs(), pending[i..], now)
      {
        assert pending[i..][1..] == pending[i + 1..];
        ProcessPacket(pending[i], now);
        if end.Some? {
          return;
        }
      }
    }

    method OnNotification(chunk: bytes, now: int)
      requires Valid() && end.None?
      modifies this, asm.Object()
      ensures Valid() && Abs() == OnChunk(cfg, old(Abs()), chunk, now)
    {
      hide Scan, Process, Packet.Parse, Settled, IsAuthReply, AuthCode, ReadPayloads;
      lastPacket := now;
      var payloads := asm.Reassemble(chunk);
      if payloads.Err? {
        end := Some(ReassemblyFailed(payloads.error));
        return;
      }
      ghost var s1 := Abs();
      assert payloads.value[0..] == payloads.value;
      for i := 0 to |payloads.value|
        invariant Valid() && end.None?
        invariant ReadPayloads(cfg, s1, payloads.value, now) == ReadPayloads(cfg, Abs(), payloads.value[i..], now)
      {
        ReadPayloadsTurn(cfg, Abs(), payloads.value, i, now);
        var packet := Packet.ParsePacket(payloads.value[i], cfg.xorPayload);
        if packet.Err? {
          continue;
        }
        if IsAuthReply(packet.value) {
          if AuthCode(packet.value.payload) != 0 {
            end := Some(AuthRefused(AuthCode(packet.value.payload)));
            ReadPayloadsEnd(cfg, Abs(), payloads.value[i + 1..], now);
            return;
          }
          continue;
        }
        ProcessPacket(packet.value, now);
        if end.Some? {
          ReadPayloadsEnd(cfg, Abs(), payloads.value[i + 1..], now);
          return;
        }
      }
      ReadPayloadsEnd(cfg, Abs(), payloads.value[|payloads.value|..], now);
    }

    method OnIdleTick(now: int, writeOk: bool)
      requires Valid() && end.None?
      modifies this
      ensures Valid() && Abs() == OnTick(cfg, old(Abs()), now, writeOk)
    {
      if StaleAfter(lastFresh, cfg.staleTimeout, now) && !isStale {
        isStale := true;
        published := Waiting;
      }
      if now - lastPacket >= cfg.pollInterval {
        if !writeOk {
          end := Some(WriteFailed);
          return;
        }
      }
      if now - lastPacket >= 2 * cfg.pollInterval {
        end := Some(IdleTimeout);
      }
    }

    method Loop(events: seq<Event>)
      requires Valid()
      modifies this, asm.Object()
      ensures Valid() && Abs() == Run(cfg, old(Abs()), events, |events|)
    {
      hide OnChunk, OnTick;
      for i := 0 to |events|
        invariant Valid() && Abs() == Run(cfg, old(Abs()), events, i)
      {
        if end.None? {
          match events[i]
          case Chunk(data, at) => OnNotification(data, at);
          case Tick(at, writeOk) => OnIdleTick(at, writeOk);
          case Cancel => end := Some(SessionCancelled);
        }
      }
    }
  }
}
