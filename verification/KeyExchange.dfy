/** From the open connection to the session's assembler and pending packets, for every encryption type. */
module KeyExchange {
  import opened Bytes
  import opened Encryption
  import opened Framing
  import opened Reassembly
  import opened StreamRoundTrip
  import opened Assemblers
  import opened Handshake
  import opened Authentication

  /**
   * What is computed with keys: this side's public key, the cipher for the key info that the device's
   * public key leads to, and the session's cipher. Each computation may fail.
   */
  datatype Keys = Keys(
    publicKey: Option<bytes>, temporary: bytes -> Option<Cipher>, final: (bytes, bytes) -> Option<Cipher>)

  /** Which of the four writes succeed. */
  datatype Writes = Writes(publicKey: bool, keyInfo: bool, status: bool, login: bool)

  datatype Attempt<+T> = Fine(value: T) | Broken(reason: Reason)

  function CurveSize(curve: byte): nat {
    if curve == 1 then 52 else if curve == 2 then 56 else if curve == 3 || curve == 4 then 64 else 40
  }

  /** The temporary cipher that a reply to the public key leads to, or what is wrong with the reply. */
  function Agree(keys: Keys, reply: bytes): (r: Attempt<Cipher>)
    ensures r.Fine? ==> |reply| >= 43
  {
    if |reply| < 3 || reply[0] != 0x01 then Broken(BadPublicKey)
    else if CurveSize(reply[2]) != 40 then Broken(UnsupportedCurve)
    else if |reply| < 43 then Broken(BadPublicKey)
    else
      match keys.temporary(reply[3..43])
      case None => Broken(KeyAgreementFailed)
      case Some(cipher) => Fine(cipher)
  }

  /** The session's cipher, from the reply to the public key and the key info. */
  function Derive(keys: Keys, reply: bytes, temporary: Cipher, info: bytes): Attempt<Cipher>
    requires |reply| >= 43
  {
    if |info| < 17 || info[0] != 0x02 then Broken(BadKeyInfo)
    else
      match Decrypt(Type7(temporary), info[1..])
      case Err(error) => Broken(RequestFailed(error))
      case Ok(decrypted) =>
        if |decrypted| < 18 then Broken(BadKeyInfo)
        else
          match keys.final(reply[3..43], decrypted[..18])
          case None => Broken(KeyDerivationFailed)
          case Some(cipher) => Fine(cipher)
  }

  /** A handshake request on the wire. */
  function Asked(payload: bytes, written: bool): Attempt<bytes> {
    match MarshalFrame(0, payload)
    case Err(error) => Broken(RequestFailed(error))
    case Ok(w) => if written then Fine(w) else Broken(WriteFailed)
  }

  // ----- The exchange -----

  /** A cipher, the bytes that stay in the handshake's assembler, and the events used; or why there is none. */
  datatype Outcome7 = Agreed(cipher: Cipher, left: bytes, used: nat) | NotAgreed(reason: Reason) | Unanswered

  datatype Exchanged = Exchanged(sent: seq<bytes>, outcome: Outcome7)

  function NoReply(r: WaitResult): Outcome7
    requires !r.Got?
  {
    match r
    case Cancelled => NotAgreed(SessionCancelled)
    case TimedOut => NotAgreed(HandshakeTimedOut)
    case Blocked => Unanswered
  }

  function Exchange(keys: Keys, writes: Writes, events: seq<Event>): (x: Exchanged)
    ensures x.outcome.Agreed? ==> x.outcome.used <= |events|
  {
    match keys.publicKey
    case None => Exchanged([], NotAgreed(KeyGenerationFailed))
    case Some(key) =>
      match Asked([0x01, 0x00] + key, writes.publicKey)
      case Broken(reason) => Exchanged([], NotAgreed(reason))
      case Fine(request) =>
        var a := Await([], events, 0x01);
        match a.result
        case Got(reply) =>
          var later := ExchangeInfo(keys, writes, reply, a.kept, events[a.used..]);
          Exchanged([request] + later.sent, Later(later.outcome, a.used))
        case _ => Exchanged([request], NoReply(a.result))
  }

  function Later(o: Outcome7, used: nat): Outcome7 {
    if o.Agreed? then o.(used := used + o.used) else o
  }

  /** The second half, from the reply to the public key on. */
  function ExchangeInfo(keys: Keys, writes: Writes, reply: bytes, kept: bytes, events: seq<Event>): (x: Exchanged)
    ensures x.outcome.Agreed? ==> x.outcome.used <= |events|
  {
    match Agree(keys, reply)
    case Broken(reason) => Exchanged([], NotAgreed(reason))
    case Fine(temporary) =>
      match Asked([0x02], writes.keyInfo)
      case Broken(reason) => Exchanged([], NotAgreed(reason))
      case Fine(request) => Exchanged([request], Conclude(keys, reply, temporary, Await(kept, events, 0x02)))
  }

  function Conclude(keys: Keys, reply: bytes, temporary: Cipher, b: Awaited): (o: Outcome7)
    requires |reply| >= 43
    ensures o.Agreed? ==> o.left == b.kept && o.used == b.used
  {
    if !b.result.Got? then NoReply(b.result)
    else
      match Derive(keys, reply, temporary, b.result.payload)
      case Broken(reason) => NotAgreed(reason)
      case Fine(cipher) => Agreed(cipher, b.kept, b.used)
  }

  predicate Requested(keys: Keys, writes: Writes) {
    keys.publicKey.Some? && Asked([0x01, 0x00] + keys.publicKey.value, writes.publicKey).Fine?
  }

  // The two halves, each unfolded once.
  lemma ExchangeIs(keys: Keys, writes: Writes, events: seq<Event>)
    ensures var o, a := Exchange(keys, writes, events).outcome, Await([], events, 0x01);
            && (o.Agreed? ==> Requested(keys, writes) && a.result.Got?)
            && (Requested(keys, writes) && a.result.Got? ==>
                  o == Later(ExchangeInfo(keys, writes, a.result.payload, a.kept, events[a.used..]).outcome, a.used))
  {
    hide Asked, Await, ExchangeInfo;
  }

  lemma ExchangeInfoIs(keys: Keys, writes: Writes, reply: bytes, kept: bytes, events: seq<Event>)
    ensures var o, agreed := ExchangeInfo(keys, writes, reply, kept, events).outcome, Agree(keys, reply);
            && (o.Agreed? ==> agreed.Fine? && Asked([0x02], writes.keyInfo).Fine?)
            && (agreed.Fine? && Asked([0x02], writes.keyInfo).Fine? ==>
                  o == Conclude(keys, reply, agreed.value, Await(kept, events, 0x02)))
  {
    hide Asked, Await, Agree, Conclude;
  }

  method Ask(a: SimplePacketAssembler, payload: bytes, written: bool) returns (r: Attempt<bytes>)
    ensures r == Asked(payload, written)
  {
    hide MarshalFrame;
    var w := a.Encode(payload);
    if w.Err? {
      return Broken(RequestFailed(w.error));
    }
    if !written {
      return Broken(WriteFailed);
    }
    return Fine(w.value);
  }

  method Wait(a: SimplePacketAssembler, events: seq<Event>, command: byte) returns (r: WaitResult, used: nat)
    modifies a
    ensures Awaited(r, used, a.buffer) == Await(old(a.buffer), events, command)
    ensures used <= |events|
  {
    hide Search, Received, Await;
    r, used := WaitForSimplePayload(a, events, command);
    AwaitIs(old(a.buffer), events, command);
    WaitUnique(old(a.buffer), events, command, Awaited(r, used, a.buffer), Await(old(a.buffer), events, command));
  }

  method ExchangeKeys(simple: SimplePacketAssembler, keys: Keys, writes: Writes, events: seq<Event>)
      returns (o: Outcome7, sent: seq<bytes>)
    requires simple.buffer == []
    modifies simple
    ensures Exchanged(sent, o) == Exchange(keys, writes, events)
    ensures o.Agreed? ==> simple.buffer == o.left && o.used <= |events|
  {
    hide Asked, Await, Agree, ExchangeInfo;
    sent := [];
    if keys.publicKey.None? {
      return NotAgreed(KeyGenerationFailed), sent;
    }
    var request := Ask(simple, [0x01, 0x00] + keys.publicKey.value, writes.publicKey);
    if request.Broken? {
      return NotAgreed(request.reason), sent;
    }
    var reply, used := Wait(simple, events, 0x01);
    if !reply.Got? {
      return NoReply(reply), [request.value];
    }
    o, sent := ExchangeKeyInfo(simple, keys, writes, reply.payload, events[used..]);
    o, sent := Later(o, used), [request.value] + sent;
  }

  method ExchangeKeyInfo(simple: SimplePacketAssembler, keys: Keys, writes: Writes, reply: bytes, events: seq<Event>)
      returns (o: Outcome7, sent: seq<bytes>)
    modifies simple
    ensures Exchanged(sent, o) == ExchangeInfo(keys, writes, reply, old(simple.buffer), events)
    ensures o.Agreed? ==> simple.buffer == o.left && o.used <= |events|
  {
    hide Asked, Await, Decrypt;
    sent := [];
    if |reply| < 3 || reply[0] != 0x01 {
      return NotAgreed(BadPublicKey), sent;
    }
    if CurveSize(reply[2]) != 40 {
      return NotAgreed(UnsupportedCurve), sent;
    }
    if |reply| < 3 + 40 {
      return NotAgreed(BadPublicKey), sent;
    }
    var temporary := keys.temporary(reply[3..3 + 40]);
    if temporary.None? {
      return NotAgreed(KeyAgreementFailed), sent;
    }
    var request := Ask(simple, [0x02], writes.keyInfo);
    if request.Broken? {
      return NotAgreed(request.reason), sent;
    }
    sent := [request.value];
    var info, used := Wait(simple, events, 0x02);
    if !info.Got? {
      return NoReply(info), sent;
    }
    if |info.payload| < 17 || info.payload[0] != 0x02 {
      return NotAgreed(BadKeyInfo), sent;
    }
    var decrypted := Decrypt(Type7(temporary.value), info.payload[1..]);
    if decrypted.Err? {
      return NotAgreed(RequestFailed(decrypted.error)), sent;
    }
    if |decrypted.value| < 18 {
      return NotAgreed(BadKeyInfo), sent;
    }
    var cipher := keys.final(reply[3..43], decrypted.value[..18]);
    if cipher.None? {
      return NotAgreed(KeyDerivationFailed), sent;
    }
    return Agreed(cipher.value, simple.buffer, used), sent;
  }

  // ----- The whole bootstrap -----

  /** The framing a session will use and the events used to agree on it. */
  datatype Prepared = Prepared(framing: Framing, used: nat) | NotPrepared(reason: Reason) | Unprepared

  datatype Bootstrapped =
    | Started(framing: Framing, pending: seq<Pkt>, kept: bytes, used: nat)
    | NotStarted(reason: Reason)
    | StillWaiting

  function Prepare(encryptType: int, type1: Cipher, keys: Keys, writes: Writes, events: seq<Event>): (p: Prepared)
    ensures p.Prepared? ==> p.used <= |events|
  {
    if encryptType == 0 then Prepared(Passthrough, 0)
    else if encryptType == 1 then Prepared(RawHeader(Type1(type1)), 0)
    else if encryptType != 7 then NotPrepared(UnsupportedEncryption)
    else
      match Exchange(keys, writes, events).outcome
      case Agreed(cipher, _, used) => Prepared(Outer(Some(Type7(cipher))), used)
      case NotAgreed(reason) => NotPrepared(reason)
      case Unanswered => Unprepared
  }

  /** Authentication, by an assembler that starts empty, on the events after the key exchange. */
  function Begin(p: Prepared, login: Login, writes: Writes, xorPayload: bool, events: seq<Event>): Bootstrapped
    requires p.Prepared? ==> p.used <= |events|
  {
    match p
    case NotPrepared(reason) => NotStarted(reason)
    case Unprepared => StillWaiting
    case Prepared(f, used) =>
      var o := Open(f, [StatusRequest(login), LoginRequest(login)], [writes.status, writes.login]);
      if o.failure.Some? then NotStarted(o.failure.value)
      else Entered(f, used, Authenticate(f, xorPayload, [], events[used..], 0))
  }

  function Entered(f: Framing, used: nat, r: AuthResult): Bootstrapped {
    match r
    case AuthDone(pending, kept, n) => Started(f, pending, kept, used + n)
    case AuthFailed(reason) => NotStarted(reason)
    case AuthBlocked(_) => StillWaiting
  }

  method BootstrapSession(encryptType: int, type1: Cipher, keys: Keys, writes: Writes, login: Login, xorPayload: bool,
                          events: seq<Event>)
      returns (r: Bootstrapped, asm: Option<FrameAssembler>)
    ensures r == Begin(Prepare(encryptType, type1, keys, writes, events), login, writes, xorPayload, events)
    ensures r.Started? ==>
              && asm.Some? && fresh(asm.value.Object()) && asm.value.Valid()
              && asm.value.Framing() == r.framing && asm.value.Buffer() == r.kept
  {
    hide Exchange, Authenticate, Open, Settled;
    asm := None;
    var used := 0;
    if encryptType == 0 {
      var a := new PassthroughAssembler();
      asm := Some(Pass(a));
    } else if encryptType == 1 {
      var a := new RawHeaderAssembler(Type1(type1));
      asm := Some(Raw(a));
    } else if encryptType == 7 {
      var simple := new SimplePacketAssembler();
      var o, _ := ExchangeKeys(simple, keys, writes, events);
      if o.NotAgreed? {
        return NotStarted(o.reason), None;
      }
      if o.Unanswered? {
        return StillWaiting, None;
      }
      used := o.used;
      var a := new EncPacketAssembler(Some(Type7(o.cipher)));
      asm := Some(Enc(a));
    } else {
      return NotStarted(UnsupportedEncryption), None;
    }
    var result, _ := FinishAuthentication(asm.value, login, writes.status, writes.login, xorPayload, events[used..]);
    r := Entered(asm.value.Framing(), used, result);
  }
}
