/** How old the single fields of a published status are: a merge keeps what reports stop giving. */
module FieldAge {
  import opened Bytes
  import opened Framing
  import opened Reassembly
  import opened StreamRoundTrip
  import opened Authentication
  import opened PacketTheorems
  import opened Session
  import Packet

  datatype Field = Charge | Runtime | InputPower | OutputPower | InputPresent

  predicate Gives(t: Telemetry, field: Field) {
    match field
    case Charge => t.charge.Some?
    case Runtime => t.runtimeSeconds.Some?
    case InputPower => t.inputPower.Some?
    case OutputPower => t.outputPower.Some?
    case InputPresent => t.inputPresent.Some?
  }

  predicate Agree(t: Telemetry, u: Telemetry, field: Field) {
    match field
    case Charge => t.charge == u.charge
    case Runtime => t.runtimeSeconds == u.runtimeSeconds
    case InputPower => t.inputPower == u.inputPower
    case OutputPower => t.outputPower == u.outputPower
    case InputPresent => t.inputPresent == u.inputPresent
  }

  /** The last report that gave a field. */
  function LastGiver(reports: seq<Report>, field: Field): (k: Option<nat>)
    ensures k.Some? ==> k.value < |reports| && Gives(reports[k.value].telemetry, field)
    ensures forall j :: (if k.Some? then k.value + 1 else 0) <= j < |reports| ==> !Gives(reports[j].telemetry, field)
  {
    if reports == [] then None
    else if Gives(reports[|reports| - 1].telemetry, field) then Some(|reports| - 1)
    else LastGiver(reports[..|reports| - 1], field)
  }

  /** Some report younger than the timeout gave the field. */
  predicate RecentlyGiven(reports: seq<Report>, field: Field, now: int, timeout: int) {
    exists k :: 0 <= k < |reports| && Gives(reports[k].telemetry, field) && now - reports[k].at < timeout
  }

  predicate InOrder(reports: seq<Report>, upTo: int) {
    && (forall j, k :: 0 <= j <= k < |reports| ==> reports[j].at <= reports[k].at)
    && (forall k :: 0 <= k < |reports| ==> reports[k].at <= upTo)
  }

  lemma LastKnownAt<T>(reports: seq<Report>, of: Telemetry -> Option<T>, k: nat)
    requires k < |reports| && of(reports[k].telemetry).Some?
    requires forall j :: k < j < |reports| ==> of(reports[j].telemetry).None?
    ensures LastKnown(Observed(reports, of)) == of(reports[k].telemetry)
    decreases |reports|
  {
    var last := |reports| - 1;
    assert Observed(reports, of)[..last] == Observed(reports[..last], of);
    if k < last {
      LastKnownAt(reports[..last], of, k);
    }
  }

  lemma NeverKnown<T>(reports: seq<Report>, of: Telemetry -> Option<T>)
    requires forall j :: 0 <= j < |reports| ==> of(reports[j].telemetry).None?
    ensures LastKnown(Observed(reports, of)).None?
    decreases |reports|
  {
    if reports != [] {
      var last := |reports| - 1;
      assert Observed(reports, of)[..last] == Observed(reports[..last], of);
      NeverKnown(reports[..last], of);
    }
  }

  // A known field has the value of its last giver; a field nobody gave is not known.
  lemma KnownFromGiver(latest: Telemetry, reports: seq<Report>, field: Field)
    requires KnowsLast(latest, reports)
    ensures match LastGiver(reports, field)
            case Some(k) => Gives(latest, field) && Agree(latest, reports[k].telemetry, field)
            case None => !Gives(latest, field)
  {
    hide LastKnown, Observed;
    match LastGiver(reports, field)
    case Some(k) =>
      match field {
        case Charge => LastKnownAt(reports, ChargeOf, k);
        case Runtime => LastKnownAt(reports, RuntimeOf, k);
        case InputPower => LastKnownAt(reports, InputPowerOf, k);
        case OutputPower => LastKnownAt(reports, OutputPowerOf, k);
        case InputPresent => LastKnownAt(reports, InputPresentOf, k);
      }
    case None =>
      match field {
        case Charge => NeverKnown(reports, ChargeOf);
        case Runtime => NeverKnown(reports, RuntimeOf);
        case InputPower => NeverKnown(reports, InputPowerOf);
        case OutputPower => NeverKnown(reports, OutputPowerOf);
        case InputPresent => NeverKnown(reports, InputPresentOf);
      }
  }

  /** The time of the last event that has one, among the first n. */
  function Clock(start: int, events: seq<Event>, n: nat): int
    requires n <= |events|
  {
    if n == 0 then start
    else if events[n - 1].Cancel? then Clock(start, events, n - 1)
    else events[n - 1].at
  }

  /** Time does not run backwards. */
  predicate Timely(start: int, events: seq<Event>) {
    forall i :: 0 <= i < |events| && !events[i].Cancel? ==> Clock(start, events, i) <= events[i].at
  }

  lemma {:induction false} ProcessAllInOrder(cfg: Config, s: State, packets: seq<Pkt>, at: int)
    requires InOrder(s.reports, at)
    ensures InOrder(ProcessAll(cfg, s, packets, at).reports, at)
    decreases |packets|
  {
    if packets != [] && s.end.None? {
      ProcessAllInOrder(cfg, Process(cfg, s, packets[0], at), packets[1..], at);
    }
  }

  lemma {:induction false} ReadPayloadsInOrder(cfg: Config, s: State, payloads: seq<bytes>, at: int)
    requires InOrder(s.reports, at)
    ensures InOrder(ReadPayloads(cfg, s, payloads, at).reports, at)
    decreases |payloads|
  {
    hide Packet.Parse;
    if payloads != [] && s.end.None? {
      ReadPayloadsInOrder(cfg, ReadPayload(cfg, s, payloads[0], at), payloads[1..], at);
    }
  }

  lemma StepInOrder(cfg: Config, s: State, e: Event, before: int)
    requires InOrder(s.reports, before) && (!e.Cancel? ==> before <= e.at)
    ensures InOrder(Step(cfg, s, e).reports, if e.Cancel? then before else e.at)
  {
    hide ReadPayloads, Scan;
    if s.end.None? && e.Chunk? {
      var o := Scan(cfg.framing, s.buffer + e.data);
      if o.Done? {
        ReadPayloadsInOrder(cfg, s.(lastPacket := e.at, buffer := o.buffer), o.payloads, e.at);
      }
    }
  }

  lemma {:induction false} RunInOrder(cfg: Config, pending: seq<Pkt>, buffer: bytes, at: int,
                                      events: seq<Event>, n: nat)
    requires n <= |events| && Timely(at, events)
    ensures InOrder(Run(cfg, Start(cfg, pending, buffer, at), events, n).reports, Clock(at, events, n))
    decreases n
  {
    hide Step, InOrder;
    if n == 0 {
      hide ProcessAll;
      var s0 := State(buffer, at, None, true, NO_TELEMETRY, Waiting, [], [], None);
      NoReports(at);
      ProcessAllInOrder(cfg, s0, pending, at);
    } else {
      RunInOrder(cfg, pending, buffer, at, events, n - 1);
      StepInOrder(cfg, Run(cfg, Start(cfg, pending, buffer, at), events, n - 1), events[n - 1],
                  Clock(at, events, n - 1));
    }
  }

  lemma NoReports(at: int)
    ensures InOrder([], at)
  {}

  lemma RecentGiver(reports: seq<Report>, field: Field, now: int, timeout: int)
    requires InOrder(reports, now)
    ensures RecentlyGiven(reports, field, now, timeout) <==>
            match LastGiver(reports, field)
            case Some(k) => now - reports[k].at < timeout
            case None => false
  {}

  /**
   * Right after a tick with a live status, each published field has the value of the last report that gave
   * it, and is younger than the stale timeout if and only if some report that young gave it. Merging keeps
   * fields that reports have stopped giving, so a live status alone bounds only the latest report's age.
   */
  lemma FieldFreshness(cfg: Config, pending: seq<Pkt>, buffer: bytes, at: int, events: seq<Event>, n: nat, field: Field)
    requires 0 < n <= |events| && Timely(at, events)
    ensures var before := Run(cfg, Start(cfg, pending, buffer, at), events, n - 1);
            var s, e := Run(cfg, Start(cfg, pending, buffer, at), events, n), events[n - 1];
            before.end.None? && e.Tick? && Status(s.published) != "WAIT" ==>
              && s.published.Live?
              && match LastGiver(s.reports, field)
                 case None => !Gives(s.published.telemetry, field)
                 case Some(k) =>
                   && Gives(s.published.telemetry, field)
                   && Agree(s.published.telemetry, s.reports[k].telemetry, field)
                   && (e.at - s.reports[k].at < cfg.staleTimeout <==>
                       RecentlyGiven(s.reports, field, e.at, cfg.staleTimeout))
  {
    hide Status, KnowsLast, Start, Run, LastGiver, RecentlyGiven, InOrder, Gives, Agree;
    var s, e := Run(cfg, Start(cfg, pending, buffer, at), events, n), events[n - 1];
    RunCoherent(cfg, pending, buffer, at, events, n);
    RunInOrder(cfg, pending, buffer, at, events, n);
    StatusWaits(s.published);
    if e.Tick? && Status(s.published) != "WAIT" {
      KnownFromGiver(s.latest, s.reports, field);
      RecentGiver(s.reports, field, e.at, cfg.staleTimeout);
    }
  }

  const CHARGE_50 := NO_TELEMETRY.(charge := Some(50))
  const POWER_7 := NO_TELEMETRY.(inputPower := Some(7))

  const SOME_PACKET := Packet.Packet(0x21, 0x35, 1, 1, [], 1, 1, 3, [0, 0, 0, 0], 0x0D)

  lemma SomePacketPlain()
    ensures Survives(SOME_PACKET) && Defaulted(SOME_PACKET) == SOME_PACKET && Packet.CrcFormat(SOME_PACKET.version)
    ensures Masked(SOME_PACKET, false) == SOME_PACKET && !IsAuthReply(SOME_PACKET)
  {}

  lemma SomePacketRead() returns (m: bytes)
    ensures Packet.Marshal(SOME_PACKET) == Ok(m)
    ensures Packet.Parse(m, false) == Ok(SOME_PACKET) && Scan(Passthrough, m) == Done([m], [])
  {
    hide Packet.Parse, Scan, FeedAll, Masked, Survives, Defaulted, Packet.CrcFormat;
    m := Packet.Marshal(SOME_PACKET).value;
    hide Packet.Marshal;
    SomePacketPlain();
    RoundTrip(SOME_PACKET, false, m);
    OnePacketDelivered(SOME_PACKET, m);
  }

  lemma OnePacketDelivered(p: Pkt, m: bytes)
    requires Packet.Marshal(p) == Ok(m) && Packet.CrcFormat(p.version)
    ensures Scan(Passthrough, m) == Done([m], [])
  {
    hide Packet.Marshal, Packet.CrcFormat, Scan, FeedAll;
    assert Flatten([m]) == m + Flatten([]) == m;
    PacketsDelivered(Passthrough, [p], [m], [m], [m]);
    EmptySettled(Passthrough);
    ChunkingInvariance(Passthrough, [], [m]);
    assert [] + m == m;
  }

  /**
   * A field really can be published long after it went stale: a charge reported at time 0 is withdrawn by
   * the tick at 50 and published again, 101 old with a timeout of 10, once another field is reported.
   */
  lemma OldFieldPublished() returns (cfg: Config, events: seq<Event>)
    ensures |events| == 3 && Timely(0, events) && events[0] == Tick(50, true) && events[2] == Tick(101, true)
    ensures cfg.staleTimeout == 10
    ensures var start := Start(cfg, [SOME_PACKET], [], 0);
            && Run(cfg, start, events, 1).published == Waiting
            && var s := Run(cfg, start, events, 3);
               && s.end.None? && s.published == Live(false, false, CHARGE_50.Merge(POWER_7))
               && s.reports == [Report(CHARGE_50, 0), Report(POWER_7, 100)]
  {
    var m := SomePacketRead();
    hide Packet.Marshal, Packet.Parse, Scan;
    cfg := Config(Passthrough, false, 100, 10, 0, 0,
                  (ps: seq<Pkt>) => Reading(Some(if |ps| == 1 then CHARGE_50 else POWER_7)));
    events := [Tick(50, true), Chunk(m, 100), Tick(101, true)];
    var p := SOME_PACKET;
    var s0 := Process(cfg, State([], 0, None, true, NO_TELEMETRY, Waiting, [], [], None), p, 0);
    assert ProcessAll(cfg, s0, [p][1..], 0) == s0;
    assert Start(cfg, [p], [], 0) == s0;
    assert Run(cfg, s0, events, 0) == s0;
    var s1 := Run(cfg, s0, events, 1);
    assert s1 == s0.(isStale := true, published := Waiting);
    assert [] + m == m;
    var heard := s1.(lastPacket := 100);
    var s2 := Process(cfg, heard, p, 100);
    assert ReadPayload(cfg, heard, m, 100) == s2;
    assert ReadPayloads(cfg, s2, [m][1..], 100) == s2;
    assert Run(cfg, s0, events, 2) == s2;
    assert Run(cfg, s0, events, 3) == s2;
  }
}
