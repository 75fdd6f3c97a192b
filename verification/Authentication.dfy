/** Authentication: the two requests, and the wait for the first packet that is read. */
module Authentication {
  import opened Bytes
  import opened Crc
  import opened Framing
  import opened Reassembly
  import opened StreamRoundTrip
  import opened Assemblers
  import opened Handshake
  import opened Encryption
  import opened PacketTheorems
  import Packet

  // ----- Authentication replies -----

  predicate IsAuthReply(p: Pkt) {
    p.src == 0x35 && p.cmdSet == 0x35 && p.cmdId == 0x86
  }

  /** The error code of a reply; zero is success. */
  function AuthCode(payload: bytes): byte {
    if payload == [] then 0 else payload[0]
  }

  /** From the authentication command of the device's own address. */
  predicate FromAuth(p: Pkt) {
    p.src == 0x35 && p.cmdSet == 0x35 && p.cmdId == 0x86
  }

  /** The packets that are not authentication replies. */
  function NonAuth(packets: seq<Pkt>): seq<Pkt> {
    if packets == [] then []
    else (if FromAuth(packets[0]) then [] else [packets[0]]) + NonAuth(packets[1..])
  }

  /** The code of the first refusing authentication reply: its first payload byte, if that is not zero. */
  function Refusal(packets: seq<Pkt>): Option<byte> {
    if packets == [] then None
    else
      var p := packets[0];
      if FromAuth(p) && p.payload != [] && p.payload[0] != 0 then Some(p.payload[0]) else Refusal(packets[1..])
  }

  lemma ReplyIs(p: Pkt)
    ensures IsAuthReply(p) <==> FromAuth(p)
    ensures AuthCode(p.payload) != 0 <==> p.payload != [] && p.payload[0] != 0
    ensures p.payload != [] ==> AuthCode(p.payload) == p.payload[0]
  {}

  lemma {:induction false} ParsedConcat(a: seq<bytes>, b: seq<bytes>, xorPayload: bool)
    ensures Parsed(a + b, xorPayload) == Parsed(a, xorPayload) + Parsed(b, xorPayload)
  {
    hide Packet.Parse;
    if a == [] {
      assert a + b == b;
    } else {
      assert (a + b)[1..] == a[1..] + b;
      ParsedConcat(a[1..], b, xorPayload);
    }
  }

  lemma {:induction false} NonAuthConcat(a: seq<Pkt>, b: seq<Pkt>)
    ensures NonAuth(a + b) == NonAuth(a) + NonAuth(b)
    ensures Refusal(a + b) == if Refusal(a).Some? then Refusal(a) else Refusal(b)
  {
    if a == [] {
      assert a + b == b;
    } else {
      assert (a + b)[1..] == a[1..] + b;
      NonAuthConcat(a[1..], b);
    }
  }

  // ----- Authentication -----

  datatype Round = Refused(code: byte) | Round(pending: seq<Pkt>, authenticated: bool)

  /** The payloads of one notification, read in order. */
  function AuthRound(pending: seq<Pkt>, authenticated: bool, payloads: seq<bytes>, xorPayload: bool): Round
    decreases |payloads|
  {
    if payloads == [] then Round(pending, authenticated)
    else
      match Packet.Parse(payloads[0], xorPayload)
      case Err(_) => AuthRound(pending, authenticated, payloads[1..], xorPayload)
      case Ok(p) =>
        if !IsAuthReply(p) then AuthRound(pending + [p], authenticated, payloads[1..], xorPayload)
        else if AuthCode(p.payload) != 0 then Refused(AuthCode(p.payload))
        else AuthRound(pending, true, payloads[1..], xorPayload)
  }

  datatype Reason =
    | RequestFailed(error: Error) | WriteFailed | SessionCancelled | AuthTimedOut | AuthRefused(code: byte)
    | ReassemblyFailed(error: Error) | HandlerFailed | IdleTimeout
    | KeyGenerationFailed | HandshakeTimedOut | BadPublicKey | UnsupportedCurve | KeyAgreementFailed | BadKeyInfo
    | KeyDerivationFailed | UnsupportedEncryption

  datatype AuthResult =
    | AuthDone(pending: seq<Pkt>, buffer: bytes, used: nat)
    | AuthFailed(reason: Reason)
    | AuthBlocked(buffer: bytes)

  function Authenticate(f: Framing, xorPayload: bool, buffer: bytes, events: seq<Handshake.Event>, i: nat): AuthResult
    requires i <= |events|
    decreases |events| - i
  {
    if i == |events| then AuthBlocked(buffer)
    else
      match events[i]
      case Cancel => AuthFailed(SessionCancelled)
      case Timeout => AuthFailed(AuthTimedOut)
      case Chunk(data) =>
        match Scan(f, buffer + data)
        case Failed(error) => AuthFailed(ReassemblyFailed(error))
        case Done(payloads, kept) =>
          match AuthRound([], false, payloads, xorPayload)
          case Refused(code) => AuthFailed(AuthRefused(code))
          case Round(pending, authenticated) =>
            if authenticated || pending != [] then AuthDone(pending, kept, i + 1)
            else Authenticate(f, xorPayload, kept, events, i + 1)
  }

  /** What the requests say: the device's format and address, and the digest of user and serial. */
  datatype Login = Login(version: byte, dst: byte, digest: bytes)

  function StatusRequest(l: Login): Pkt {
    Packet.Packet(0x21, l.dst, 0x35, 0x89, [], 1, 1, l.version, [0, 0, 0, 0], 0)
  }

  function LoginRequest(l: Login): Pkt {
    Packet.Packet(0x21, l.dst, 0x35, 0x86, l.digest, 1, 1, l.version, [0, 0, 0, 0], 0)
  }

  /** What is written of two requests, given which writes succeed, and why the second is not reached. */
  datatype Opening = Opening(sent: seq<bytes>, failure: Option<Reason>)

  function Open(f: Framing, requests: seq<Pkt>, writes: seq<bool>): (o: Opening)
    requires |requests| == |writes|
  {
    if requests == [] then Opening([], None)
    else
      match Encode(f, requests[0])
      case Err(error) => Opening([], Some(RequestFailed(error)))
      case Ok(w) =>
        if !writes[0] then Opening([], Some(WriteFailed)) else AlsoSent(w, Open(f, requests[1..], writes[1..]))
  }

  function AlsoSent(w: bytes, later: Opening): Opening {
    later.(sent := [w] + later.sent)
  }

  // The requests are sent in order until one cannot be encoded or written.
  lemma OpenConcat(f: Framing, p: Pkt, q: Pkt, pWritten: bool, qWritten: bool)
    ensures var first := Open(f, [p], [pWritten]);
            Open(f, [p, q], [pWritten, qWritten]) ==
            if first.failure.Some? then first
            else Opening(first.sent + Open(f, [q], [qWritten]).sent, Open(f, [q], [qWritten]).failure)
  {
    hide Encode;
    assert [p, q][1..] == [q] && [pWritten, qWritten][1..] == [qWritten];
  }

  method WritePacket(asm: FrameAssembler, p: Pkt, written: bool) returns (sent: seq<bytes>, failure: Option<Reason>)
    ensures Opening(sent, failure) == Open(asm.Framing(), [p], [written])
  {
    hide Encode;
    var data := asm.Encode(p);
    if data.Err? {
      return [], Some(RequestFailed(data.error));
    }
    if !written {
      return [], Some(WriteFailed);
    }
    return [data.value], None;
  }

  method FinishAuthentication(asm: FrameAssembler, login: Login, statusWritten: bool, loginWritten: bool,
                              xorPayload: bool, events: seq<Handshake.Event>)
      returns (r: AuthResult, sent: seq<bytes>)
    requires asm.Valid()
    modifies asm.Object()
    ensures asm.Valid()
    ensures var o := Open(asm.Framing(), [StatusRequest(login), LoginRequest(login)], [statusWritten, loginWritten]);
            && sent == o.sent
            && r == if o.failure.Some? then AuthFailed(o.failure.value)
                    else Authenticate(asm.Framing(), xorPayload, old(asm.Buffer()), events, 0)
    ensures r.AuthDone? ==> asm.Buffer() == r.buffer
    ensures r.AuthBlocked? ==> asm.Buffer() == r.buffer
  {
    hide Open, StatusRequest, LoginRequest;
    ghost var f := asm.Framing();
    OpenConcat(f, StatusRequest(login), LoginRequest(login), statusWritten, loginWritten);
    var failure;
    sent, failure := WritePacket(asm, StatusRequest(login), statusWritten);
    if failure.Some? {
      return AuthFailed(failure.value), sent;
    }
    var more;
    more, failure := WritePacket(asm, LoginRequest(login), loginWritten);
    sent := sent + more;
    if failure.Some? {
      return AuthFailed(failure.value), sent;
    }
    r := AwaitAuthentication(asm, xorPayload, events);
  }

  method AwaitAuthentication(asm: FrameAssembler, xorPayload: bool, events: seq<Handshake.Event>)
      returns (r: AuthResult)
    requires asm.Valid()
    modifies asm.Object()
    ensures asm.Valid()
    ensures r == Authenticate(asm.Framing(), xorPayload, old(asm.Buffer()), events, 0)
    ensures r.AuthDone? ==> asm.Buffer() == r.buffer
    ensures r.AuthBlocked? ==> asm.Buffer() == r.buffer
  {
    hide Scan, Packet.Parse;
    ghost var f := asm.Framing();
    for i := 0 to |events|
      invariant asm.Valid()
      invariant Authenticate(f, xorPayload, old(asm.Buffer()), events, 0)
             == Authenticate(f, xorPayload, asm.Buffer(), events, i)
    {
      match events[i]
      case Cancel => return AuthFailed(SessionCancelled);
      case Timeout => return AuthFailed(AuthTimedOut);
      case Chunk(data) =>
        var payloads := asm.Reassemble(data);
        if payloads.Err? {
          return AuthFailed(ReassemblyFailed(payloads.error));
        }
        var round := ReadAuthRound(payloads.value, xorPayload);
        if round.Refused? {
          return AuthFailed(AuthRefused(round.code));
        }
        if round.authenticated || |round.pending| > 0 {
          return AuthDone(round.pending, asm.Buffer(), i + 1);
        }
    }
    return AuthBlocked(asm.Buffer());
  }

  method ReadAuthRound(payloads: seq<bytes>, xorPayload: bool) returns (r: Round)
    ensures r == AuthRound([], false, payloads, xorPayload)
  {
    hide Packet.Parse;
    var pending: seq<Pkt> := [];
    var authenticated := false;
    assert payloads[0..] == payloads;
    for i := 0 to |payloads|
      invariant AuthRound([], false, payloads, xorPayload)
             == AuthRound(pending, authenticated, payloads[i..], xorPayload)
    {
      assert payloads[i..][1..] == payloads[i + 1..];
      var packet := Packet.ParsePacket(payloads[i], xorPayload);
      if packet.Err? {
        continue;
      }
      if IsAuthReply(packet.value) {
        if AuthCode(packet.value.payload) != 0 {
          return Refused(AuthCode(packet.value.payload));
        }
        authenticated := true;
        continue;
      }
      pending := pending + [packet.value];
    }
    return Round(pending, authenticated);
  }

  /** The logins the daemon makes: a profile's packet version and 32 hexadecimal digits. */
  predicate Valid(l: Login) {
    l.version in {0x02, 0x13} && |l.digest| == 32 && forall k :: 0 <= k < 32 ==> l.digest[k] < 0x80
  }

  // All that matters about a request: it is short, of a profile's version, unmasked and unterminated.
  predicate Plain(p: Pkt) {
    && |p.payload| <= 32 && p.version in {0x02, 0x13} && p.seqNo[0] == 0
    && !EndsInTwo(p.payload, 0xBB)
  }

  lemma RequestsPlain(l: Login)
    requires Valid(l)
    ensures Plain(StatusRequest(l)) && Plain(LoginRequest(l))
  {
  }

  lemma PlainDeliverable(f: Framing, p: Pkt)
    requires Plain(p)
    ensures Deliverable(f, p) <==> f.Outer? || p.version == 0x02
  {
    hide EndsInTwo;
  }

  lemma PlainSurvives(p: Pkt, xorPayload: bool)
    requires Plain(p)
    ensures Survives(p) && Masked(p, xorPayload) == p
  {
    hide EndsInTwo, Packet.Mask;
    Packet.MaskZero(p.payload);
  }

  /** A request is recognised as it was printed if and only if the framing can carry its format. */
  lemma RequestRecognised(f: Framing, l: Login, p: Pkt, t: bytes)
    requires InUse(f) && Valid(l) && (p == StatusRequest(l) || p == LoginRequest(l))
    ensures Packet.Marshal(p).Ok? && Encode(f, p).Ok?
    ensures CarriesBefore(f, Encode(f, p).value, Packet.Marshal(p).value, t) <==> f.Outer? || l.version == 0x02
  {
    RequestsPlain(l);
    RequestEncodes(f, p);
    PlainDeliverable(f, p);
    hide Judge, StartsAt, InUse, Encode, Packet.Marshal, Deliverable, Plain, Valid;
    Recognised(f, p, Packet.Marshal(p).value, Encode(f, p).value, t);
  }

  lemma RequestEncodes(f: Framing, p: Pkt)
    requires InUse(f) && |p.payload| <= 32
    ensures Packet.Marshal(p).Ok? && Encode(f, p).Ok?
  {
    var m := Packet.Marshal(p).value;
    hide Packet.Marshal, EncodeOuter, Encrypt;
    MarshalBounds(p, m);
    PrintedEncodes(f, m);
  }

  /** Where they are recognised, the other end reads both requests, as sent, from any cutting of their bytes. */
  lemma RequestsArrive(f: Framing, l: Login, xorPayload: bool, chunks: seq<bytes>)
    requires InUse(f) && Valid(l) && (f.Outer? || l.version == 0x02)
    requires Flatten(chunks) == Flatten(Open(f, [StatusRequest(l), LoginRequest(l)], [true, true]).sent)
    ensures var o := FeedAll(f, [], chunks);
            && o.Done? && o.buffer == []
            && Parsed(o.payloads, xorPayload) ==
               (var d: byte := if l.version == 0x02 then 0 else 1;
                [Packet.Packet(0x21, l.dst, 0x35, 0x89, [], d, d, l.version, [0, 0, 0, 0], 0x0D),
                 Packet.Packet(0x21, l.dst, 0x35, 0x86, l.digest, d, d, l.version, [0, 0, 0, 0], 0x0D)])
  {
    hide InUse, Encode, Packet.Marshal, FeedAll, Parsed, Defaulted, Deliverable, Survives, Masked, Open;
    var p, q := StatusRequest(l), LoginRequest(l);
    RequestsPlain(l);
    forall r | r == p || r == q
      ensures Packet.Marshal(r).Ok? && Encode(f, r).Ok? && Deliverable(f, r)
      ensures Survives(r) && Masked(r, xorPayload) == r
    {
      RequestEncodes(f, r);
      PlainDeliverable(f, r);
      PlainSurvives(r, xorPayload);
    }
    BothSent(f, p, q);
    var ps := [p, q];
    var ws, ms := [Encode(f, p).value, Encode(f, q).value], [Packet.Marshal(p).value, Packet.Marshal(q).value];
    assert AllMasked(ps, xorPayload) == ps;
    EndToEnd(f, ps, xorPayload, ws, ms, chunks);
    assert AllDefaulted(ps) == [Defaulted(p), Defaulted(q)];
    RequestBytes(l);
  }

  lemma RequestBytes(l: Login)
    requires Valid(l)
    ensures var d: byte := if l.version == 0x02 then 0 else 1;
            && Defaulted(StatusRequest(l)) ==
               Packet.Packet(0x21, l.dst, 0x35, 0x89, [], d, d, l.version, [0, 0, 0, 0], 0x0D)
            && Defaulted(LoginRequest(l)) ==
               Packet.Packet(0x21, l.dst, 0x35, 0x86, l.digest, d, d, l.version, [0, 0, 0, 0], 0x0D)
  {}

  /** Which of the two requests are sent, and why not, when both can be encoded. */
  lemma OpeningDecided(f: Framing, p: Pkt, q: Pkt, pWritten: bool, qWritten: bool)
    requires Encode(f, p).Ok? && Encode(f, q).Ok?
    ensures Open(f, [p, q], [pWritten, qWritten]) ==
            if !pWritten then Opening([], Some(WriteFailed))
            else if !qWritten then Opening([Encode(f, p).value], Some(WriteFailed))
            else Opening([Encode(f, p).value, Encode(f, q).value], None)
  {
    hide Encode;
    OpenConcat(f, p, q, pWritten, qWritten);
  }

  lemma BothSent(f: Framing, p: Pkt, q: Pkt)
    requires Encode(f, p).Ok? && Encode(f, q).Ok?
    ensures Open(f, [p, q], [true, true]).sent == [Encode(f, p).value, Encode(f, q).value]
  {
    hide Encode;
    OpenConcat(f, p, q, true, true);
  }

  /** What a round must come to for the packets it read. */
  predicate RoundIs(r: Round, pending: seq<Pkt>, authenticated: bool, packets: seq<Pkt>) {
    && |NonAuth(packets)| <= |packets|
    && match r
       case Refused(code) => Refusal(packets) == Some(code)
       case Round(after, authenticatedAfter) =>
         && Refusal(packets).None? && after == pending + NonAuth(packets)
         && (authenticatedAfter <==> authenticated || |NonAuth(packets)| < |packets|)
  }

  /** One round, in terms of the packets it read. */
  lemma {:induction false} AuthRoundIs(pending: seq<Pkt>, authenticated: bool, payloads: seq<bytes>, xorPayload: bool)
    ensures RoundIs(AuthRound(pending, authenticated, payloads, xorPayload), pending, authenticated,
                    Parsed(payloads, xorPayload))
    decreases |payloads|
  {
    hide Packet.Parse, IsAuthReply, AuthCode, RoundIs;
    if payloads == [] {
      NothingRound(pending, authenticated);
    } else {
      match Packet.Parse(payloads[0], xorPayload)
      case Err(_) => AuthRoundIs(pending, authenticated, payloads[1..], xorPayload);
      case Ok(p) =>
        var later := Parsed(payloads[1..], xorPayload);
        if !IsAuthReply(p) {
          AuthRoundIs(pending + [p], authenticated, payloads[1..], xorPayload);
          var r := AuthRound(pending + [p], authenticated, payloads[1..], xorPayload);
          OtherFirst(r, pending, authenticated, p, later);
        } else if AuthCode(p.payload) != 0 {
          RefusalFirst(pending, authenticated, p, later);
        } else {
          AuthRoundIs(pending, true, payloads[1..], xorPayload);
          ReplyFirst(AuthRound(pending, true, payloads[1..], xorPayload), pending, authenticated, p, later);
        }
    }
  }

  lemma NothingRound(pending: seq<Pkt>, authenticated: bool)
    ensures RoundIs(Round(pending, authenticated), pending, authenticated, [])
  {}

  lemma FirstSorted(p: Pkt, later: seq<Pkt>)
    ensures NonAuth([p] + later) == (if IsAuthReply(p) then [] else [p]) + NonAuth(later)
    ensures Refusal([p] + later) == if IsAuthReply(p) && AuthCode(p.payload) != 0 then Some(AuthCode(p.payload))
                                    else Refusal(later)
  {
    hide IsAuthReply, AuthCode, FromAuth;
    ReplyIs(p);
    assert ([p] + later)[1..] == later;
  }

  lemma OtherFirst(r: Round, pending: seq<Pkt>, authenticated: bool, p: Pkt, later: seq<Pkt>)
    requires !IsAuthReply(p) && RoundIs(r, pending + [p], authenticated, later)
    ensures RoundIs(r, pending, authenticated, [p] + later)
  {
    hide IsAuthReply, AuthCode, NonAuth, Refusal;
    FirstSorted(p, later);
    assert pending + ([p] + NonAuth(later)) == (pending + [p]) + NonAuth(later);
  }

  lemma ReplyFirst(r: Round, pending: seq<Pkt>, authenticated: bool, p: Pkt, later: seq<Pkt>)
    requires IsAuthReply(p) && AuthCode(p.payload) == 0 && RoundIs(r, pending, true, later)
    ensures RoundIs(r, pending, authenticated, [p] + later)
  {
    hide IsAuthReply, AuthCode, NonAuth, Refusal;
    FirstSorted(p, later);
    assert [] + NonAuth(later) == NonAuth(later);
  }

  lemma RefusalFirst(pending: seq<Pkt>, authenticated: bool, p: Pkt, later: seq<Pkt>)
    requires IsAuthReply(p) && AuthCode(p.payload) != 0
    ensures RoundIs(Refused(AuthCode(p.payload)), pending, authenticated, [p] + later)
  {
    hide IsAuthReply, AuthCode;
    FirstSorted(p, later);
    NonAuthShrinks([p] + later);
  }

  lemma {:induction false} NonAuthShrinks(packets: seq<Pkt>)
    ensures |NonAuth(packets)| <= |packets|
  {
    if packets != [] {
      NonAuthShrinks(packets[1..]);
    }
  }

  /** What has been read from the first n events, as packets. */
  function PacketsAfter(f: Framing, xorPayload: bool, stream: bytes): seq<Pkt> {
    match Scan(f, stream)
    case Done(payloads, _) => Parsed(payloads, xorPayload)
    case Failed(_) => []
  }

  // The state between two notifications: the bytes of the first i events have been read, without packets.
  ghost predicate StillSilent(f: Framing, xorPayload: bool, buffer: bytes, events: seq<Handshake.Event>, i: nat) {
    && i <= |events| && (forall k :: 0 <= k < i ==> events[k].Chunk?)
    && Scan(f, Received(Notified, events, i)).Done? && Scan(f, Received(Notified, events, i)).buffer == buffer
    && PacketsAfter(f, xorPayload, Received(Notified, events, i)) == []
  }

  // One notification during authentication, in terms of the packets it completes.
  lemma AuthChunk(f: Framing, xorPayload: bool, buffer: bytes, events: seq<Handshake.Event>, i: nat)
    requires InUse(f) && StillSilent(f, xorPayload, buffer, events, i) && i < |events| && events[i].Chunk?
    ensures var seen := Received(Notified, events, i + 1);
            var packets, o := PacketsAfter(f, xorPayload, seen), Scan(f, seen);
            && o.Done?
            && Authenticate(f, xorPayload, buffer, events, i) ==
               if Refusal(packets).Some? then AuthFailed(AuthRefused(Refusal(packets).value))
               else if packets != [] then AuthDone(NonAuth(packets), o.buffer, i + 1)
               else Authenticate(f, xorPayload, o.buffer, events, i + 1)
  {
    hide Scan, Parsed, NonAuth, Refusal, InUse, PacketsAfter;
    var data, seen := events[i].data, Received(Notified, events, i);
    NeverFails(f, buffer + data);
    RoundRead(f, xorPayload, seen, data);
    assert Received(Notified, events, i + 1) == seen + data;
    var payloads := Scan(f, buffer + data).payloads;
    var packets := Parsed(payloads, xorPayload);
    AuthRoundIs([], false, payloads, xorPayload);
    assert [] + packets == packets && [] + NonAuth(packets) == NonAuth(packets);
    NoPackets();
  }

  /** Before the used-th event only notifications came, and from the i-th on none completed a packet. */
  predicate Silent(f: Framing, xorPayload: bool, events: seq<Handshake.Event>, i: nat, used: nat)
    requires used <= |events|
  {
    && (forall k :: 0 <= k < used ==> events[k].Chunk?)
    && (forall k :: i <= k <= used ==> PacketsAfter(f, xorPayload, Received(Notified, events, k)) == [])
  }

  /** The event before the used-th ended authentication, the ones before it did not. */
  predicate EndsAt(f: Framing, xorPayload: bool, events: seq<Handshake.Event>, i: nat, used: nat, reason: Reason) {
    && i < used <= |events| && Silent(f, xorPayload, events, i, used - 1)
    && match reason
       case SessionCancelled => events[used - 1].Cancel?
       case AuthTimedOut => events[used - 1].Timeout?
       case AuthRefused(code) =>
         && events[used - 1].Chunk?
         && Refusal(PacketsAfter(f, xorPayload, Received(Notified, events, used))) == Some(code)
       case _ => false
  }

  ghost predicate AuthMeans(f: Framing, xorPayload: bool, events: seq<Handshake.Event>, i: nat, r: AuthResult) {
    match r
    case AuthDone(pending, kept, used) =>
      && i < used <= |events| && Silent(f, xorPayload, events, i, used - 1) && events[used - 1].Chunk?
      && var stream := Received(Notified, events, used);
         && Scan(f, stream).Done? && Scan(f, stream).buffer == kept
         && PacketsAfter(f, xorPayload, stream) != [] && Refusal(PacketsAfter(f, xorPayload, stream)).None?
         && pending == NonAuth(PacketsAfter(f, xorPayload, stream))
    case AuthFailed(reason) => exists used :: EndsAt(f, xorPayload, events, i, used, reason)
    case AuthBlocked(kept) => StillSilent(f, xorPayload, kept, events, |events|)
  }

  /**
   * Authentication ends at the first event that completes a packet, or cancels, or is the timeout. It is
   * refused when one of those packets refuses; otherwise the pending packets are exactly those that are
   * not replies, and the buffer kept is the one that reading the whole stream keeps.
   */
  lemma {:induction false} AuthenticateIs(f: Framing, xorPayload: bool, buffer: bytes,
                                          events: seq<Handshake.Event>, i: nat)
    requires InUse(f) && StillSilent(f, xorPayload, buffer, events, i)
    ensures AuthMeans(f, xorPayload, events, i, Authenticate(f, xorPayload, buffer, events, i))
    decreases |events| - i
  {
    hide Scan, NonAuth, Refusal, InUse, PacketsAfter, Received, EndsAt, Silent, AuthMeans;
    if i < |events| {
      if events[i].Chunk? {
        AuthChunk(f, xorPayload, buffer, events, i);
        var seen := Received(Notified, events, i + 1);
        if PacketsAfter(f, xorPayload, seen) == [] {
          NoPackets();
          AuthenticateIs(f, xorPayload, Scan(f, seen).buffer, events, i + 1);
          SilentSince(f, xorPayload, events, i, Authenticate(f, xorPayload, buffer, events, i));
        } else {
          AuthEnds(f, xorPayload, buffer, events, i);
        }
      } else {
        AuthEnds(f, xorPayload, buffer, events, i);
      }
    } else {
      AuthWaits(f, xorPayload, buffer, events);
    }
  }

  // The event that ends authentication is the one it is looking at.
  lemma AuthEnds(f: Framing, xorPayload: bool, buffer: bytes, events: seq<Handshake.Event>, i: nat)
    requires InUse(f) && StillSilent(f, xorPayload, buffer, events, i) && i < |events|
    requires events[i].Chunk? ==> PacketsAfter(f, xorPayload, Received(Notified, events, i + 1)) != []
    ensures AuthMeans(f, xorPayload, events, i, Authenticate(f, xorPayload, buffer, events, i))
  {
    hide Scan, NonAuth, Refusal, InUse, PacketsAfter, Received;
    var r := Authenticate(f, xorPayload, buffer, events, i);
    assert Silent(f, xorPayload, events, i, i);
    if events[i].Chunk? {
      AuthChunk(f, xorPayload, buffer, events, i);
    }
    if r.AuthFailed? {
      assert EndsAt(f, xorPayload, events, i, i + 1, r.reason);
    }
  }

  lemma AuthWaits(f: Framing, xorPayload: bool, buffer: bytes, events: seq<Handshake.Event>)
    requires StillSilent(f, xorPayload, buffer, events, |events|)
    ensures AuthMeans(f, xorPayload, events, |events|, Authenticate(f, xorPayload, buffer, events, |events|))
  {
    hide Scan, PacketsAfter, Received;
  }

  // What is found from the next event on is what is found from this one on, if this one was silent.
  lemma SilentSince(f: Framing, xorPayload: bool, events: seq<Handshake.Event>, i: nat, r: AuthResult)
    requires i < |events| && PacketsAfter(f, xorPayload, Received(Notified, events, i)) == []
    requires AuthMeans(f, xorPayload, events, i + 1, r)
    ensures AuthMeans(f, xorPayload, events, i, r)
  {
    hide Scan, NonAuth, Refusal, PacketsAfter, Received;
    if r.AuthFailed? {
      var used :| EndsAt(f, xorPayload, events, i + 1, used, r.reason);
      assert EndsAt(f, xorPayload, events, i, used, r.reason);
    }
  }

  lemma NoPackets()
    ensures NonAuth([]) == [] && Refusal([]) == None
  {}

  // Reading one more notification adds the packets of its payloads.
  lemma RoundRead(f: Framing, xorPayload: bool, seen: bytes, data: bytes)
    requires Scan(f, seen).Done? && Scan(f, Scan(f, seen).buffer + data).Done?
    ensures var o, now := Scan(f, seen + data), Scan(f, Scan(f, seen).buffer + data);
            && o.Done? && o.buffer == now.buffer
            && PacketsAfter(f, xorPayload, seen + data)
               == PacketsAfter(f, xorPayload, seen) + Parsed(now.payloads, xorPayload)
  {
    hide Scan, Parsed;
    Resume(f, seen, data);
    ParsedConcat(Scan(f, seen).payloads, Scan(f, Scan(f, seen).buffer + data).payloads, xorPayload);
  }
}
