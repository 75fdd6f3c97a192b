/** The key exchange from what the device sends: which bytes lead to which key, and when it is refused. */
module KeyTheorems {
  import opened Bytes
  import opened Encryption
  import opened Framing
  import opened StreamRoundTrip
  import opened Handshake
  import opened Authentication
  import opened KeyExchange

  /** The device's reply to the public key: two bytes that do not matter here, a curve, its key, anything. */
  function KeyReply(b: byte, c: byte, key: bytes, tail: bytes): bytes {
    [0x01, b, c] + key + tail
  }

  /** The key info: the secret, encrypted under the temporary cipher. */
  function KeyInfo(temporary: Cipher, secret: bytes, extra: bytes): bytes
    requires |secret + extra| <= MAX_PACKET
  {
    Type7Inverts(temporary, secret + extra);
    [0x02] + Encrypt(Type7(temporary), secret + extra).value
  }

  /** The cipher for the key info is the one that the 40 bytes of the device's key lead to. */
  lemma ReplyAgreed(keys: Keys, b: byte, c: byte, key: bytes, tail: bytes, temporary: Cipher)
    requires |key| == 40 && c !in {1, 2, 3, 4} && keys.temporary(key) == Some(temporary)
    ensures var reply := KeyReply(b, c, key, tail);
            |reply| == 43 + |tail| && reply[0] == 0x01 && Agree(keys, reply) == Fine(temporary)
  {
    assert KeyReply(b, c, key, tail)[3..43] == key;
  }

  /** The session's cipher is the one that the device's key and the 18 decrypted bytes lead to. */
  lemma InfoDerived(keys: Keys, b: byte, c: byte, key: bytes, tail: bytes, temporary: Cipher, secret: bytes,
                    extra: bytes, cipher: Cipher)
    requires |key| == 40 && |secret| == 18 && |extra| <= 9000 && keys.final(key, secret) == Some(cipher)
    ensures var reply, info := KeyReply(b, c, key, tail), KeyInfo(temporary, secret, extra);
            && |reply| == 43 + |tail| && 17 <= |info| <= |extra| + 35 && info[0] == 0x02
            && Derive(keys, reply, temporary, info) == Fine(cipher)
  {
    hide Encrypt, Decrypt, IsCipher;
    var reply, plain := KeyReply(b, c, key, tail), secret + extra;
    Type7Inverts(temporary, plain);
    var info := KeyInfo(temporary, secret, extra);
    assert info[1..] == Encrypt(Type7(temporary), plain).value;
    assert reply[3..43] == key && plain[..18] == secret;
  }

  /** Every reply to the public key, with the exact reason for each refusal. */
  lemma ReplyDecided(keys: Keys, reply: bytes)
    ensures Agree(keys, reply) == Broken(BadPublicKey) <==>
            |reply| < 3 || reply[0] != 0x01 || (reply[2] !in {1, 2, 3, 4} && |reply| < 43)
    ensures Agree(keys, reply) == Broken(UnsupportedCurve) <==>
            |reply| >= 3 && reply[0] == 0x01 && reply[2] in {1, 2, 3, 4}
    ensures |reply| >= 43 && reply[0] == 0x01 && reply[2] !in {1, 2, 3, 4} ==>
              (Agree(keys, reply) == Broken(KeyAgreementFailed) <==> keys.temporary(reply[3..43]).None?)
    ensures Agree(keys, reply).Broken? ==>
              Agree(keys, reply).reason in {BadPublicKey, UnsupportedCurve, KeyAgreementFailed}
    ensures |reply| >= 43 && Agree(keys, reply).Fine? ==> keys.temporary(reply[3..43]) == Some(Agree(keys, reply).value)
  {
    hide IsCipher;
  }

  /** Every key info, with the exact reason for each refusal. */
  lemma InfoDecided(keys: Keys, reply: bytes, temporary: Cipher, info: bytes)
    requires |reply| >= 43
    ensures |info| < 17 || info[0] != 0x02 ==> Derive(keys, reply, temporary, info) == Broken(BadKeyInfo)
    ensures |info| >= 17 && info[0] == 0x02 ==>
              && Decrypt(Type7(temporary), info[1..]).Ok?
              && var plain, r := Decrypt(Type7(temporary), info[1..]).value, Derive(keys, reply, temporary, info);
                 && (|plain| < 18 <==> r == Broken(BadKeyInfo))
                 && (|plain| >= 18 ==>
                       match keys.final(reply[3..43], plain[..18])
                       case None => r == Broken(KeyDerivationFailed)
                       case Some(cipher) => r == Fine(cipher))
  {
    Type7NeverFails(temporary, if |info| > 0 then info[1..] else []);
    hide Decrypt, IsCipher;
  }

  /** What a wait that brings no reply does to the exchange. */
  predicate EndsAs(o: Outcome7, r: WaitResult) {
    match r
    case Cancelled => o == NotAgreed(SessionCancelled)
    case TimedOut => o == NotAgreed(HandshakeTimedOut)
    case Blocked => o == Unanswered
    case Got(_) => true
  }

  /** The first half of the exchange: what has been sent, and why it may go no further. */
  lemma FirstHalf(keys: Keys, writes: Writes, events: seq<Event>)
    ensures var x, a := Exchange(keys, writes, events), Await([], events, 0x01);
            && (keys.publicKey.None? ==> x == Exchanged([], NotAgreed(KeyGenerationFailed)))
            && (keys.publicKey.Some? && |keys.publicKey.value| <= 40 ==>
                  var request := MarshalFrame(0, [0x01, 0x00] + keys.publicKey.value);
                  && request.Ok?
                  && (!writes.publicKey ==> x == Exchanged([], NotAgreed(WriteFailed)))
                  && (writes.publicKey && !a.result.Got? ==> x.sent == [request.value] && EndsAs(x.outcome, a.result))
                  && (writes.publicKey && a.result.Got? ==>
                        var later := ExchangeInfo(keys, writes, a.result.payload, a.kept, events[a.used..]);
                        && x.sent == [request.value] + later.sent
                        && match later.outcome
                           case Agreed(cipher, left, used) => x.outcome == Agreed(cipher, left, a.used + used)
                           case o => x.outcome == o))
  {
    hide UnsealedFrame, Await, ExchangeInfo, IsCipher;
  }

  /** The second half, from the reply to the public key on. */
  lemma SecondHalf(keys: Keys, writes: Writes, reply: bytes, kept: bytes, events: seq<Event>)
    ensures var x, agreed := ExchangeInfo(keys, writes, reply, kept, events), Agree(keys, reply);
            var b := Await(kept, events, 0x02);
            && MarshalFrame(0, [0x02]).Ok?
            && (agreed.Broken? ==> x == Exchanged([], NotAgreed(agreed.reason)))
            && (agreed.Fine? && !writes.keyInfo ==> x == Exchanged([], NotAgreed(WriteFailed)))
            && (agreed.Fine? && writes.keyInfo ==> x.sent == [MarshalFrame(0, [0x02]).value])
            && (agreed.Fine? && writes.keyInfo && !b.result.Got? ==> EndsAs(x.outcome, b.result))
            && (agreed.Fine? && writes.keyInfo && b.result.Got? ==>
                  match Derive(keys, reply, agreed.value, b.result.payload)
                  case Broken(reason) => x.outcome == NotAgreed(reason)
                  case Fine(cipher) => x.outcome == Agreed(cipher, b.kept, b.used))
  {
    hide UnsealedFrame, Await, Agree, Derive, IsCipher;
  }

  /** Which framing each encryption type leads to, and that every other type is refused. */
  lemma FramingByType(encryptType: int, type1: Cipher, keys: Keys, writes: Writes, events: seq<Event>)
    ensures var p, x := Prepare(encryptType, type1, keys, writes, events), Exchange(keys, writes, events).outcome;
            && (encryptType == 0 ==> p == Prepared(Passthrough, 0))
            && (encryptType == 1 ==> p == Prepared(RawHeader(Type1(type1)), 0))
            && (encryptType == 7 && x.Agreed? ==> p == Prepared(Outer(Some(Type7(x.cipher))), x.used))
            && (encryptType == 7 && x.NotAgreed? ==> p == NotPrepared(x.reason))
            && (encryptType == 7 && x.Unanswered? ==> p == Unprepared)
            && (encryptType !in {0, 1, 7} ==> p == NotPrepared(UnsupportedEncryption))
  {
    hide Exchange, IsCipher;
  }

  /** What the requests and the wait that follows them make of a framing agreed on after so many events. */
  ghost predicate StartsAs(r: Bootstrapped, f: Framing, used: nat, failure: Option<Reason>, auth: AuthResult) {
    match failure
    case Some(reason) => r == NotStarted(reason)
    case None =>
      match auth
      case AuthDone(pending, kept, n) => r == Started(f, pending, kept, used + n)
      case AuthFailed(reason) => r == NotStarted(reason)
      case AuthBlocked(_) => r == StillWaiting
  }

  /** A session starts exactly if a framing was agreed on, both requests were sent and authentication is done. */
  lemma StartDecided(p: Prepared, login: Login, writes: Writes, xorPayload: bool, events: seq<Event>, opening: Opening)
    requires p.Prepared? ==>
               && p.used <= |events|
               && opening == Open(p.framing, [StatusRequest(login), LoginRequest(login)], [writes.status, writes.login])
    ensures var r := Begin(p, login, writes, xorPayload, events);
            && (p.NotPrepared? ==> r == NotStarted(p.reason))
            && (p.Unprepared? ==> r == StillWaiting)
            && (p.Prepared? ==>
                  StartsAs(r, p.framing, p.used, opening.failure,
                           Authenticate(p.framing, xorPayload, [], events[p.used..], 0)))
  {
    hide Open, Authenticate;
  }
}
