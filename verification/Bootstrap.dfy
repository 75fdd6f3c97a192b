/** Between the handshake and authentication: what becomes of bytes that came with the last reply. */
module Bootstrap {
  import opened Bytes
  import opened Framing
  import opened Reassembly
  import opened Emission
  import opened StreamRoundTrip
  import opened Authentication
  import opened PacketTheorems
  import opened Session
  import opened KeyExchange
  import opened KeyTheorems
  import opened Assemblers
  import opened Encryption
  import Handshake

  // The wait for the key reply leaves the bytes after it in the handshake's assembler. The session's
  // assembler starts empty, so it reads the stream without them.

  /** Leaving bytes behind changes no later reading if and only if they hold no frame, whole or begun. */
  lemma LeftBehind(f: Framing, rest: bytes)
    ensures (forall later :: Scan(f, rest + later) == Scan(f, later)) <==> Scan(f, rest) == Done([], [])
  {
    EmptySettled(f);
    hide Scan;
    if forall later :: Scan(f, rest + later) == Scan(f, later) {
      assert Scan(f, rest + []) == Scan(f, []);
      assert rest + [] == rest;
    }
    if Scan(f, rest) == Done([], []) {
      forall later
        ensures Scan(f, rest + later) == Scan(f, later)
      {
        Resume(f, rest, later);
        PrependLaws([], [], Scan(f, later));
        assert [] + later == later;
      }
    }
  }

  /** Of a stream of frames that are carried, only the empty beginning can be left behind like that. */
  lemma FramesLeftBehind(f: Framing, ws: seq<bytes>, ms: seq<bytes>, rest: bytes, more: bytes)
    requires AllCarry(f, ws, ms) && Flatten(ws) == rest + more
    ensures (forall later :: Scan(f, rest + later) == Scan(f, later)) <==> rest == []
  {
    hide Scan, AllCarry;
    LeftBehind(f, rest);
    EmptySettled(f);
    if rest != [] {
      BeginningKept(f, ws, ms, rest, more);
    }
  }

  lemma BeginningKept(f: Framing, ws: seq<bytes>, ms: seq<bytes>, rest: bytes, more: bytes)
    requires AllCarry(f, ws, ms) && Flatten(ws) == rest + more && rest != []
    ensures Scan(f, rest) != Done([], [])
  {
    hide Scan, Judge, StartsAt, Carries;
    assert ws != [];
    var w, later := ws[0], Flatten(ws[1..]);
    assert Carries(f, w, ms[0]);
    assert w + later == rest + more;
    if |w| <= |rest| {
      assert rest == w + rest[|w|..] by {
        assert rest == (rest + more)[..|rest|] && (w + later)[..|w|] == w;
      }
      CarriedFirst(f, w, ms[0], rest[|w|..]);
      PrependNotEmpty(ms[0], Scan(f, rest[|w|..]));
    } else {
      assert w == rest + w[|rest|..] by {
        assert rest == (rest + more)[..|rest|] && (w + later)[..|w|] == w;
      }
      FrameBegun(f, rest, w, ms[0]);
    }
  }

  lemma PrependNotEmpty(m: bytes, o: Outcome)
    ensures Prepend([m], o) != Done([], [])
  {}

  // A proper beginning of a frame that is carried is kept.
  lemma FrameBegun(f: Framing, rest: bytes, w: bytes, m: bytes)
    requires Carries(f, w, m) && 0 < |rest| < |w| && w == rest + w[|rest|..]
    ensures Scan(f, rest) != Done([], [])
  {
    hide Scan, ScanFrame, Judge;
    assert CarriesBefore(f, w, m, []);
    assert w + [] == w && rest[0] == w[0];
    if StartsAt(f, rest, 0) {
      JudgeStable(f, rest, w[|rest|..]);
      ScanAtStart(f, rest);
      FrameTurn(f, rest);
    } else {
      assert f.Outer? && rest == [MARK];
      ScanTurn(f, rest);
    }
  }

  // ----- What is lost with the key reply -----

  /**
   * If the bytes left behind are whole frames, their packets are exactly what the session misses of the
   * stream that begins behind the key reply: it handles all of it if and only if they hold nothing but
   * authentication replies.
   */
  lemma LostWithReply(cfg: Config, left: bytes, payloads: seq<bytes>,
                      auth: seq<Handshake.Event>, pending: seq<Pkt>, kept: bytes, used: nat,
                      at: int, events: seq<Event>, n: nat)
    requires InUse(cfg.framing) && n <= |events| && Scan(cfg.framing, left) == Done(payloads, [])
    requires Authenticate(cfg.framing, cfg.xorPayload, [], auth, 0) == AuthDone(pending, kept, used)
    requires Run(cfg, Start(cfg, pending, kept, at), events, n).end.None?
    ensures used <= |auth|
    ensures var stream := Received(Handshake.Notified, auth, used) + Received(Notified, events, n);
            var all := NonAuth(PacketsAfter(cfg.framing, cfg.xorPayload, left + stream));
            var lost := NonAuth(Parsed(payloads, cfg.xorPayload));
            var s := Run(cfg, Start(cfg, pending, kept, at), events, n);
            all == lost + s.processed && (s.processed == all <==> lost == [])
  {
    hide Scan, Authenticate, Start, Run, InUse, NonAuth, Parsed;
    HandOff(cfg, auth, pending, kept, used, at, events, n);
    var stream := Received(Handshake.Notified, auth, used) + Received(Notified, events, n);
    StreamGrows(cfg.framing, cfg.xorPayload, left, stream);
    assert [] + stream == stream;
  }

  /** So if the packets of some frames came with the key reply, exactly those are lost. */
  lemma FirstPacketsLost(cfg: Config, ps: seq<Pkt>, ws: seq<bytes>, ms: seq<bytes>,
                         auth: seq<Handshake.Event>, pending: seq<Pkt>, kept: bytes, used: nat,
                         at: int, events: seq<Event>, n: nat)
    requires InUse(cfg.framing) && n <= |events| && Sent(cfg.framing, AllMasked(ps, cfg.xorPayload), ws, ms)
    requires forall i :: 0 <= i < |ps| ==> Survives(ps[i])
    requires Authenticate(cfg.framing, cfg.xorPayload, [], auth, 0) == AuthDone(pending, kept, used)
    requires Run(cfg, Start(cfg, pending, kept, at), events, n).end.None?
    ensures used <= |auth|
    ensures var stream := Received(Handshake.Notified, auth, used) + Received(Notified, events, n);
            NonAuth(PacketsAfter(cfg.framing, cfg.xorPayload, Flatten(ws) + stream)) ==
            NonAuth(AllDefaulted(ps)) + Run(cfg, Start(cfg, pending, kept, at), events, n).processed
  {
    hide Scan, FeedAll, Authenticate, Start, Run, InUse, NonAuth, Parsed, Survives, Sent;
    var left := Flatten(ws);
    assert Flatten([left]) == left + Flatten([]) == left;
    EndToEnd(cfg.framing, ps, cfg.xorPayload, ws, ms, [left]);
    EmptySettled(cfg.framing);
    ChunkingInvariance(cfg.framing, [], [left]);
    assert [] + left == left;
    LostWithReply(cfg, left, ms, auth, pending, kept, used, at, events, n);
  }

  /** A handshake frame is found where it stands, and everything behind it stays in the assembler. */
  lemma ReplyFound(payload: bytes, w: bytes, more: bytes, command: byte)
    requires MarshalFrame(0, payload) == Ok(w) && 0 < |payload| <= MAX_LENGTH - 2 && payload[0] == command
    ensures Handshake.Search(w + more, command) == Handshake.Found(payload, more)
  {
    hide Scan, Judge, StartsAt, FirstStart, MarshalFrame;
    HandshakeRecognised(payload, w, more);
    var s := w + more;
    FirstStartHere(Outer(None), s);
    Handshake.PullTurn(s);
    assert s[0..] == s && s[|w|..] == more;
  }

  /**
   * The hand-off can leave anything behind: a device whose key info comes in one notification with any
   * further bytes completes the exchange with exactly those bytes left. What the device sends is its public
   * key and, encrypted, the secret that the session's key is made from.
   */
  lemma AnythingLeft(keys: Keys, writes: Writes, b: byte, c: byte, key: bytes, tail: bytes, secret: bytes,
                     extra: bytes, first: bytes, second: bytes, more: bytes, temporary: Cipher, cipher: Cipher)
    requires keys.publicKey.Some? && |keys.publicKey.value| <= 40 && writes.publicKey && writes.keyInfo
    requires |key| == 40 && c !in {1, 2, 3, 4} && |tail| <= 9000 && |secret| == 18 && |extra| <= 9000
    requires keys.temporary(key) == Some(temporary) && keys.final(key, secret) == Some(cipher)
    requires MarshalFrame(0, KeyReply(b, c, key, tail)) == Ok(first)
    requires MarshalFrame(0, KeyInfo(temporary, secret, extra)) == Ok(second)
    ensures Exchange(keys, writes, [Handshake.Chunk(first), Handshake.Chunk(second + more)]).outcome ==
            Agreed(cipher, more, 2)
    ensures Exchange(keys, writes, [Handshake.Chunk(first + second + more)]).outcome == Agreed(cipher, more, 1)
  {
    hide MarshalFrame, Agree, Derive, Asked, Handshake.Await, Exchange, ExchangeInfo, IsCipher, KeyReply, KeyInfo;
    var reply, info := KeyReply(b, c, key, tail), KeyInfo(temporary, secret, extra);
    ReplyAgreed(keys, b, c, key, tail, temporary);
    InfoDerived(keys, b, c, key, tail, temporary, secret, extra, cipher);
    AskedFine([0x01, 0x00] + keys.publicKey.value);
    AskedFine([0x02]);
    TwoNotifications(keys, writes, reply, info, first, second, more, temporary, cipher);
    OneNotification(keys, writes, reply, info, first, second, more, temporary, cipher);
  }

  lemma TwoNotifications(keys: Keys, writes: Writes, reply: bytes, info: bytes, first: bytes, second: bytes,
                         more: bytes, temporary: Cipher, cipher: Cipher)
    requires Requested(keys, writes) && Asked([0x02], writes.keyInfo).Fine?
    requires 0 < |reply| <= MAX_LENGTH - 2 && reply[0] == 0x01 && MarshalFrame(0, reply) == Ok(first)
    requires 0 < |info| <= MAX_LENGTH - 2 && info[0] == 0x02 && MarshalFrame(0, info) == Ok(second)
    requires Agree(keys, reply) == Fine(temporary) && Derive(keys, reply, temporary, info) == Fine(cipher)
    ensures Exchange(keys, writes, [Handshake.Chunk(first), Handshake.Chunk(second + more)]).outcome ==
            Agreed(cipher, more, 2)
  {
    hide MarshalFrame, Agree, Derive, Asked, Requested, Handshake.Await, Exchange, ExchangeInfo, IsCipher;
    var events := [Handshake.Chunk(first), Handshake.Chunk(second + more)];
    FirstReply(reply, first, 0x01, events);
    ExchangeIs(keys, writes, events);
    SecondEvent(first, second + more);
    AwaitNext(info, second, more, 0x02, events[1..]);
    ExchangeInfoIs(keys, writes, reply, [], events[1..]);
  }

  lemma OneNotification(keys: Keys, writes: Writes, reply: bytes, info: bytes, first: bytes, second: bytes,
                        more: bytes, temporary: Cipher, cipher: Cipher)
    requires Requested(keys, writes) && Asked([0x02], writes.keyInfo).Fine?
    requires 0 < |reply| <= MAX_LENGTH - 2 && reply[0] == 0x01 && MarshalFrame(0, reply) == Ok(first)
    requires 0 < |info| <= MAX_LENGTH - 2 && info[0] == 0x02 && MarshalFrame(0, info) == Ok(second)
    requires Agree(keys, reply) == Fine(temporary) && Derive(keys, reply, temporary, info) == Fine(cipher)
    ensures Exchange(keys, writes, [Handshake.Chunk(first + second + more)]).outcome == Agreed(cipher, more, 1)
  {
    hide MarshalFrame, Agree, Derive, Asked, Requested, Handshake.Await, Exchange, ExchangeInfo, IsCipher;
    var events := [Handshake.Chunk(first + second + more)];
    assert first + second + more == first + (second + more);
    AwaitNext(reply, first, second + more, 0x01, events);
    ExchangeIs(keys, writes, events);
    assert events[1..] == [];
    AwaitKept(info, second, more, 0x02, []);
    ExchangeInfoIs(keys, writes, reply, second + more, []);
  }

  // A reply that is already buffered is found without any event.
  lemma AwaitKept(payload: bytes, w: bytes, more: bytes, command: byte, events: seq<Handshake.Event>)
    requires MarshalFrame(0, payload) == Ok(w) && 0 < |payload| <= MAX_LENGTH - 2 && payload[0] == command
    ensures Handshake.Await(w + more, events, command) == Handshake.Awaited(Handshake.Got(payload), 0, more)
  {
    hide MarshalFrame, Handshake.Search;
    ReplyFound(payload, w, more, command);
  }

  lemma FirstReply(reply: bytes, first: bytes, command: byte, events: seq<Handshake.Event>)
    requires MarshalFrame(0, reply) == Ok(first) && 0 < |reply| <= MAX_LENGTH - 2 && reply[0] == command
    requires |events| > 0 && events[0] == Handshake.Chunk(first)
    ensures Handshake.Await([], events, command) == Handshake.Awaited(Handshake.Got(reply), 1, [])
  {
    hide MarshalFrame, Handshake.Await;
    assert first + [] == first;
    AwaitNext(reply, first, [], command, events);
  }

  lemma SecondEvent(first: bytes, second: bytes)
    ensures [Handshake.Chunk(first), Handshake.Chunk(second)][1..] == [Handshake.Chunk(second)]
  {}

  lemma AskedFine(payload: bytes)
    requires |payload| <= 42
    ensures Asked(payload, true).Fine?
  {
    hide UnsealedFrame;
  }

  // From an empty assembler, a reply at the front of the next notification is what is waited for.
  lemma AwaitNext(payload: bytes, w: bytes, more: bytes, command: byte, events: seq<Handshake.Event>)
    requires MarshalFrame(0, payload) == Ok(w) && 0 < |payload| <= MAX_LENGTH - 2 && payload[0] == command
    requires |events| > 0 && events[0] == Handshake.Chunk(w + more)
    ensures Handshake.Await([], events, command) == Handshake.Awaited(Handshake.Got(payload), 1, more)
  {
    hide MarshalFrame, Handshake.PullNext;
    ReplyFound(payload, w, more, command);
    Handshake.PullNothing();
    assert [] + (w + more) == w + more;
  }

  // ----- The chain -----

  /** What is left behind is the end of what was received up to the key info. */
  lemma LeftIsTail(keys: Keys, writes: Writes, events: seq<Handshake.Event>) returns (consumed: bytes)
    ensures var o := Exchange(keys, writes, events).outcome;
            o.Agreed? ==> Received(Handshake.Notified, events, o.used) == consumed + o.left
  {
    hide Agree, Asked, Handshake.Await, Derive, Exchange, ExchangeInfo, Received, IsCipher;
    consumed := [];
    if Exchange(keys, writes, events).outcome.Agreed? {
      var a := Handshake.Await([], events, 0x01);
      var rest := events[a.used..];
      ExchangeIs(keys, writes, events);
      ExchangeInfoIs(keys, writes, a.result.payload, a.kept, rest);
      consumed := TailOfTwo(events, a, Handshake.Await(a.kept, rest, 0x02));
    }
  }

  lemma TailOfTwo(events: seq<Handshake.Event>, a: Handshake.Awaited, b: Handshake.Awaited) returns (consumed: bytes)
    requires a == Handshake.Await([], events, 0x01) && a.used <= |events|
    requires b == Handshake.Await(a.kept, events[a.used..], 0x02)
    ensures a.used + b.used <= |events|
    ensures Received(Handshake.Notified, events, a.used + b.used) == consumed + b.kept
  {
    hide Handshake.Await, Received;
    var before := KeptIsTail([], events, 0x01);
    var after := KeptIsTail(a.kept, events[a.used..], 0x02);
    ReceivedInTwo(events, a.used, b.used);
    consumed := before + after;
    var r, t := Received(Handshake.Notified, events, a.used), Received(Handshake.Notified, events[a.used..], b.used);
    assert r == before + a.kept && a.kept + t == after + b.kept;
    assert (before + a.kept) + t == before + (a.kept + t);
  }

  lemma KeptIsTail(start: bytes, events: seq<Handshake.Event>, command: byte) returns (consumed: bytes)
    ensures var w := Handshake.Await(start, events, command);
            start + Received(Handshake.Notified, events, w.used) == consumed + w.kept
  {
    hide Handshake.Search, Handshake.Await;
    var w := Handshake.Await(start, events, command);
    Handshake.AwaitIs(start, events, command);
    consumed := SearchedTail(start + Received(Handshake.Notified, events, w.used), command);
  }

  lemma {:induction false} SearchedTail(s: bytes, command: byte) returns (consumed: bytes)
    ensures match Handshake.Search(s, command)
            case Found(_, rest) => s == consumed + rest
            case NotFound(kept) => s == consumed + kept
    decreases |s|
  {
    hide Handshake.PullNext, Handshake.Replies;
    var next := Handshake.PullNext(s);
    var first := PulledTail(s);
    consumed := first;
    if next.payload.Some? && !Handshake.Replies(next.payload.value, command) {
      var more := SearchedTail(next.buffer, command);
      consumed := first + more;
    }
  }

  lemma {:induction false} PulledTail(s: bytes) returns (consumed: bytes)
    ensures s == consumed + Handshake.PullNext(s).buffer
    decreases |s|
  {
    hide Judge, FirstStart, Handshake.PullNext;
    Handshake.PullTurn(s);
    var k := FirstStart(Outer(None), s, 0);
    if k == |s| {
      LeftoverFits(Outer(None), s);
      consumed := s[..|s| - |Leftover(Outer(None), s)|];
    } else {
      Handshake.JudgeInClear(s[k..]);
      match Judge(Outer(None), s[k..])
      case Wait => consumed := s[..k];
      case Emit(_, n) => consumed := s[..k + n];
      case Skip(n) =>
        var more := PulledTail(s[k..][n..]);
        consumed := s[..k + n] + more;
    }
  }

  lemma {:induction false} ReceivedInTwo(events: seq<Handshake.Event>, m: nat, n: nat)
    requires m + n <= |events|
    ensures Received(Handshake.Notified, events, m + n) ==
            Received(Handshake.Notified, events, m) + Received(Handshake.Notified, events[m..], n)
    decreases n
  {
    if n > 0 {
      ReceivedInTwo(events, m, n - 1);
      assert events[m..][n - 1] == events[m + n - 1];
    }
  }

  /**
   * The whole chain for type 7: a bootstrap that started, then a session that lasts. Of everything the
   * device sent behind the key info, the session misses exactly the packets of the frames left behind.
   */
  lemma ChainLoses(cfg: Config, type1: Cipher, keys: Keys, writes: Writes, login: Login,
                   events: seq<Handshake.Event>, payloads: seq<bytes>, at: int, later: seq<Event>, n: nat)
    requires n <= |later|
    requires var x := Exchange(keys, writes, events).outcome;
             x.Agreed? && cfg.framing == Outer(Some(Type7(x.cipher))) && Scan(cfg.framing, x.left) == Done(payloads, [])
    requires var r := Begin(Prepare(7, type1, keys, writes, events), login, writes, cfg.xorPayload, events);
             r.Started? && Run(cfg, Start(cfg, r.pending, r.kept, at), later, n).end.None?
    ensures var x := Exchange(keys, writes, events).outcome;
            var r := Begin(Prepare(7, type1, keys, writes, events), login, writes, cfg.xorPayload, events);
            && r.framing == cfg.framing && x.used <= r.used <= |events|
            && var stream := x.left + (Received(Handshake.Notified, events[x.used..], r.used - x.used)
                                       + Received(Notified, later, n));
               var all := NonAuth(PacketsAfter(cfg.framing, cfg.xorPayload, stream));
               var lost := NonAuth(Parsed(payloads, cfg.xorPayload));
               var handled := Run(cfg, Start(cfg, r.pending, r.kept, at), later, n).processed;
               all == lost + handled && (handled == all <==> lost == [])
  {
    hide Scan, Exchange, Authenticate, Open, Start, Run, NonAuth, Parsed, PacketsAfter;
    var x := Exchange(keys, writes, events).outcome;
    var r := Begin(Prepare(7, type1, keys, writes, events), login, writes, cfg.xorPayload, events);
    LostWithReply(cfg, x.left, payloads, events[x.used..], r.pending, r.kept, r.used - x.used, at, later, n);
  }

  /** The session object as the chain leaves it, its pending packets handled. */
  method OpenSession(cfg: Config, encryptType: int, type1: Cipher, keys: Keys, writes: Writes, login: Login,
                     events: seq<Handshake.Event>, now: int)
      returns (r: Bootstrapped, session: Option<DeviceSession>)
    ensures r == Begin(Prepare(encryptType, type1, keys, writes, events), login, writes, cfg.xorPayload, events)
    ensures r.Started? ==>
              && session.Some? && fresh(session.value) && session.value.Valid()
              && session.value.Abs() == Start(cfg.(framing := r.framing), r.pending, r.kept, now)
  {
    hide Begin, Prepare;
    var asm;
    r, asm := BootstrapSession(encryptType, type1, keys, writes, login, cfg.xorPayload, events);
    session := None;
    if r.Started? {
      var s := new DeviceSession(cfg.(framing := r.framing), asm.value, now);
      s.ProcessPending(r.pending, now);
      session := Some(s);
    }
  }
}
