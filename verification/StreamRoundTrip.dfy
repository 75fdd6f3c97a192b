/** Packets sent through a framing and received through any cutting of the stream. */
module StreamRoundTrip {
  import opened Bytes
  import opened Crc
  import opened Encryption
  import opened Framing
  import opened Reassembly
  import opened Emission
  import opened PacketTheorems
  import Packet

  type Pkt = Packet.Packet

  function EncodeOuter(encryption: Option<Strategy>, frameType: byte, payload: bytes): Result<bytes> {
    match encryption
    case None => MarshalFrame(frameType, payload)
    case Some(e) =>
      match Encrypt(e, payload)
      case Err(error) => Err(error)
      case Ok(body) => MarshalFrame(frameType, body)
  }

  /** What an assembler puts on the wire for a packet. */
  function Encode(f: Framing, p: Pkt): Result<bytes> {
    match Packet.Marshal(p)
    case Err(error) => Err(error)
    case Ok(m) =>
      match f
      case Outer(encryption) => EncodeOuter(encryption, 1, m)
      case Passthrough => Ok(m)
      case RawHeader(e) =>
        match Encrypt(e, m[5..])
        case Err(error) => Err(error)
        case Ok(body) => Ok(m[..5] + body)
  }

  function MarshalledLen(p: Pkt): nat {
    WrittenStart(p.version) + |p.payload| + 2
  }

  /** Exactly the packets a framing in use can carry. */
  predicate Deliverable(f: Framing, p: Pkt) {
    match f
    case Outer(None) => MarshalledLen(p) <= MAX_LENGTH - 2
    case Outer(Some(_)) => Type7Len(MarshalledLen(p)) <= MAX_LENGTH - 2
    case Passthrough => Packet.CrcFormat(p.version)
    case RawHeader(_) => Packet.CrcFormat(p.version)
  }

  lemma MarshalBounds(p: Pkt, m: bytes)
    requires Packet.Marshal(p) == Ok(m)
    ensures 18 <= |m| <= MAX_PACKET && |m| == MarshalledLen(p) && m[0] == Packet.PREFIX
  {
    hide Crc8, Crc16, Packet.Marshal;
    Layout(p, m);
  }

  lemma OuterLayout(frameType: byte, body: bytes, w: bytes)
    requires MarshalFrame(frameType, body) == Ok(w)
    ensures |w| == 8 + |body| && w[0] == 0x5A && w[1] == 0x5A
    ensures w[2] as int == frameType as int * 0x10 % 0x100 && w[3] == 0x01
    ensures w[4] as nat + 0x100 * w[5] as nat == |body| + 2 == GetLength(w[4..6])
    ensures w[6..|w| - 2] == body && GetWord(w[|w| - 2..]) == Crc16(w[..|w| - 2])
  {
    hide Crc16, PutWord, GetWord;
    var u := UnsealedFrame(frameType, body);
    assert w[..|w| - 2] == u && w[|w| - 2..] == PutWord(Crc16(u));
    assert w[2] == u[2] && w[3] == u[3] && w[4] == u[4] && w[5] == u[5];
    assert w[4..6] == PutLength(|body| + 2);
  }

  // An outer frame is recognised where it starts exactly when its length field is in range.
  lemma OuterRecognised(encryption: Option<Strategy>, frameType: byte, body: bytes, w: bytes, t: bytes)
    requires MarshalFrame(frameType, body) == Ok(w)
    ensures StartsAt(Outer(encryption), w + t, 0)
    ensures |body| + 2 <= MAX_LENGTH ==>
              Judge(Outer(encryption), w + t) ==
              match encryption
              case None => Emit(body, |w|)
              case Some(e) => match Decrypt(e, body) case Err(error) => Fail(error) case Ok(m) => Emit(m, |w|)
    ensures |body| + 2 > MAX_LENGTH ==> Judge(Outer(encryption), w + t) == Skip(2)
  {
    hide Crc16, GetWord, GetLength, Decrypt, MarshalFrame;
    OuterLayout(frameType, body, w);
    var d := w + t;
    assert d[4..6] == w[4..6];
    assert d[..|w| - 2] == w[..|w| - 2] && d[|w| - 2..|w|] == w[|w| - 2..];
    assert d[6..|w| - 2] == w[6..|w| - 2];
  }

  lemma HeaderKept(p: Pkt, m: bytes, d: bytes)
    requires Packet.Marshal(p) == Ok(m)
    requires |d| >= 5 && d[..5] == m[..5]
    ensures d[0] == Packet.PREFIX && Crc8(d[..4]) == d[4]
    ensures InnerLen(d) == Packet.PacketBodyLen(p.version, |p.payload|)
  {
    hide Crc8, Crc16, GetWord, GetLength, Packet.Marshal;
    Layout(p, m);
    assert d[..4] == d[..5][..4] == m[..5][..4] == m[..4];
    assert d[2..4] == d[..5][2..4] == m[..5][2..4] == m[2..4];
    assert d[0] == d[..5][0] && d[1] == d[..5][1] && d[4] == d[..5][4];
  }

  /** A sent packet is recognised where it starts, whatever follows it, exactly when it is deliverable. */
  lemma Recognised(f: Framing, p: Pkt, m: bytes, w: bytes, t: bytes)
    requires InUse(f) && Packet.Marshal(p) == Ok(m) && Encode(f, p) == Ok(w)
    ensures w != [] && StartsAt(f, w + t, 0)
    ensures Judge(f, w + t) == Emit(m, |w|) <==> Deliverable(f, p)
  {
    hide Crc8, Crc16, GetWord, Judge, StartsAt, Decrypt, Encrypt, Packet.Marshal, Packet.PacketBodyLen;
    match f
    case Outer(encryption) => OuterDelivers(encryption, p, m, w, t);
    case Passthrough => PassthroughDelivers(p, m, t);
    case RawHeader(e) => RawDelivers(e, p, m, w, t);
  }

  lemma OuterDelivers(encryption: Option<Strategy>, p: Pkt, m: bytes, w: bytes, t: bytes)
    requires InUse(Outer(encryption)) && Packet.Marshal(p) == Ok(m) && EncodeOuter(encryption, 1, m) == Ok(w)
    ensures w != [] && StartsAt(Outer(encryption), w + t, 0)
    ensures Judge(Outer(encryption), w + t) == Emit(m, |w|) <==> Deliverable(Outer(encryption), p)
  {
    MarshalBounds(p, m);
    hide Crc8, Crc16, GetWord, Judge, StartsAt, Decrypt, Encrypt, Packet.Marshal, MarshalFrame;
    match encryption
    case None =>
      OuterLayout(1, m, w);
      OuterRecognised(encryption, 1, m, w, t);
    case Some(e) =>
      Type7Inverts(e.cipher, m);
      var body := Encrypt(e, m).value;
      OuterLayout(1, body, w);
      OuterRecognised(encryption, 1, body, w, t);
  }

  lemma PassthroughDelivers(p: Pkt, m: bytes, t: bytes)
    requires Packet.Marshal(p) == Ok(m)
    ensures m != [] && StartsAt(Passthrough, m + t, 0)
    ensures Judge(Passthrough, m + t) == Emit(m, |m|) <==> Packet.CrcFormat(p.version)
  {
    hide Crc8, Crc16, GetWord, GetLength, Packet.Marshal, Packet.PacketBodyLen, InnerLen, Packet.CrcFormat,
      JudgePacket, MarshalledLen;
    MarshalBounds(p, m);
    LengthAgrees(p, m);
    FirstFive(m, t);
    HeaderKept(p, m, m + t);
    PacketJudged(m, t);
  }

  lemma FirstFive(m: bytes, t: bytes)
    requires |m| >= 5
    ensures (m + t)[..5] == m[..5]
  {}

  lemma PacketJudged(m: bytes, t: bytes)
    requires |m| >= 5 && Crc8((m + t)[..4]) == (m + t)[4]
    ensures JudgePacket(m + t) == Emit(m, |m|) <==> |m| == 5 + InnerLen(m + t)
  {
    hide Crc8, InnerLen;
    assert (m + t)[..|m|] == m;
  }

  lemma RawDelivers(e: Strategy, p: Pkt, m: bytes, w: bytes, t: bytes)
    requires e.Type1? && Packet.Marshal(p) == Ok(m)
    requires Encrypt(e, m[5..]).Ok? && w == m[..5] + Encrypt(e, m[5..]).value
    ensures w != [] && StartsAt(RawHeader(e), w + t, 0)
    ensures Judge(RawHeader(e), w + t) == Emit(m, |w|) <==> Packet.CrcFormat(p.version)
  {
    hide Crc8, Crc16, GetWord, GetLength, Packet.Marshal, Packet.PacketBodyLen, InnerLen, Packet.CrcFormat,
      Encrypt, Decrypt, RoundUp, JudgeRaw, MarshalledLen;
    MarshalBounds(p, m);
    LengthAgrees(p, m);
    FirstFive(m[..5], Encrypt(e, m[5..]).value);
    FirstFive(w, t);
    HeaderKept(p, m, w + t);
    if Packet.CrcFormat(p.version) {
      RawEmits(e, m, w, t);
    } else {
      RawPayloadLen(e, w + t);
    }
  }

  lemma RawEmits(e: Strategy, m: bytes, w: bytes, t: bytes)
    requires e.Type1? && |m| >= 5 && |m[5..]| <= MAX_PACKET
    requires Encrypt(e, m[5..]).Ok? && w == m[..5] + Encrypt(e, m[5..]).value
    requires Crc8((w + t)[..4]) == (w + t)[4] && InnerLen(w + t) == |m| - 5
    ensures JudgeRaw(e, w + t) == Emit(m, |w|)
  {
    hide Crc8, InnerLen, Encrypt, Decrypt, RoundUp, ZeroPad;
    var d, body := w + t, Encrypt(e, m[5..]).value;
    Type1Inverts(e.cipher, m[5..]);
    assert d[5..5 + |body|] == body;
    assert d[..5] == m[..5] && m[..5] + m[5..] == m;
  }

  lemma RawPayloadLen(e: Strategy, d: bytes)
    requires |d| >= 5
    ensures JudgeRaw(e, d).Emit? ==> |JudgeRaw(e, d).payload| == 5 + InnerLen(d)
  {
    hide Crc8, Decrypt;
  }

  /** What can be printed and framed at all. */
  lemma Limits(p: Pkt, frameType: byte, body: bytes)
    ensures Packet.Marshal(p) == Err(PayloadTooLarge) <==> |p.payload| > 65535
    ensures Packet.Marshal(p).Ok? <==> |p.payload| <= 65535
    ensures MarshalFrame(frameType, body) == Err(FrameTooLarge) <==> |body| > 65533
    ensures MarshalFrame(frameType, body).Ok? <==> |body| <= 65533
  {
    hide UnsealedFrame, Packet.Unsealed, PutWord, Crc16;
  }

  /** What is on the wire for a packet, framing by framing. */
  lemma EncodedBytes(f: Framing, p: Pkt, m: bytes, w: bytes)
    requires InUse(f) && Packet.Marshal(p) == Ok(m) && Encode(f, p) == Ok(w)
    ensures f == Passthrough ==> w == m
    ensures f.Outer? ==> |w| >= 8 && w[..4] == [0x5A, 0x5A, 0x10, 0x01]
    ensures f == Outer(None) ==> w[6..|w| - 2] == m
    ensures f.Outer? && f.encryption.Some? ==> Decrypt(f.encryption.value, w[6..|w| - 2]) == Ok(m)
    ensures f.RawHeader? ==>
              && |w| >= 5 && w[..5] == m[..5] && Decrypt(f.strategy, w[5..]).Ok?
              && m[5..] <= Decrypt(f.strategy, w[5..]).value && |w| < |m| + 16
  {
    hide Packet.Marshal, MarshalFrame, Encrypt, Decrypt, EncodeOuter;
    MarshalBounds(p, m);
    match f
    case Outer(encryption) => OuterEncoded(encryption, m, w);
    case RawHeader(e) => RawEncoded(e.cipher, m, w);
    case Passthrough =>
  }

  lemma OuterEncoded(encryption: Option<Strategy>, m: bytes, w: bytes)
    requires InUse(Outer(encryption)) && |m| <= MAX_PACKET && EncodeOuter(encryption, 1, m) == Ok(w)
    ensures |w| >= 8 && w[..4] == [0x5A, 0x5A, 0x10, 0x01]
    ensures encryption.None? ==> w[6..|w| - 2] == m
    ensures encryption.Some? ==> Decrypt(encryption.value, w[6..|w| - 2]) == Ok(m)
  {
    hide MarshalFrame, Encrypt, Decrypt, Type7Len, Crc16, GetWord, GetLength;
    match encryption
    case None => OuterLayout(1, m, w);
    case Some(e) =>
      Type7Inverts(e.cipher, m);
      OuterLayout(1, Encrypt(e, m).value, w);
  }

  lemma RawEncoded(c: Cipher, m: bytes, w: bytes)
    requires 5 <= |m| <= MAX_PACKET && Encrypt(Type1(c), m[5..]).Ok?
    requires w == m[..5] + Encrypt(Type1(c), m[5..]).value
    ensures 5 <= |w| < |m| + 16 && w[..5] == m[..5] && Decrypt(Type1(c), w[5..]).Ok?
    ensures m[5..] <= Decrypt(Type1(c), w[5..]).value
  {
    hide Encrypt, Decrypt, ZeroPad;
    Type1Inverts(c, m[5..]);
    assert w[5..] == Encrypt(Type1(c), m[5..]).value;
  }

  // ----- Whole streams -----

  predicate CarriesBefore(f: Framing, w: bytes, m: bytes, t: bytes) {
    w != [] && StartsAt(f, w + t, 0) && Judge(f, w + t) == Emit(m, |w|)
  }

  /** w is recognised as carrying m, whatever bytes follow. */
  ghost predicate Carries(f: Framing, w: bytes, m: bytes) {
    forall t :: CarriesBefore(f, w, m, t)
  }

  ghost predicate AllCarry(f: Framing, ws: seq<bytes>, ms: seq<bytes>) {
    |ws| == |ms| && forall i :: 0 <= i < |ws| ==> Carries(f, ws[i], ms[i])
  }

  lemma {:induction false} CarriedInOrder(f: Framing, ws: seq<bytes>, ms: seq<bytes>, t: bytes)
    requires AllCarry(f, ws, ms)
    ensures Scan(f, Flatten(ws) + t) == Prepend(ms, Scan(f, t))
    decreases |ws|
  {
    hide Scan, Judge, StartsAt, Prepend;
    if ws == [] {
      assert [] + t == t && ms == [];
      PrependLaws([], [], Scan(f, t));
    } else {
      var w, rest := ws[0], Flatten(ws[1..]) + t;
      assert Carries(f, w, ms[0]);
      assert Flatten(ws) + t == w + rest;
      CarriedInOrder(f, ws[1..], ms[1..], t);
      CarriedFirst(f, w, ms[0], rest);
      PrependLaws([ms[0]], ms[1..], Scan(f, t));
      assert ms == [ms[0]] + ms[1..];
    }
  }

  lemma CarriedFirst(f: Framing, w: bytes, m: bytes, rest: bytes)
    requires Carries(f, w, m)
    ensures Scan(f, w + rest) == Prepend([m], Scan(f, rest))
  {
    hide Scan, Judge, StartsAt;
    assert CarriesBefore(f, w, m, rest);
    ScanAtStart(f, w + rest);
    assert (w + rest)[|w|..] == rest;
  }

  /** Frames that are carried arrive exactly once, in order, through every cutting of the stream. */
  lemma Carried(f: Framing, ws: seq<bytes>, ms: seq<bytes>, chunks: seq<bytes>)
    requires AllCarry(f, ws, ms) && Flatten(chunks) == Flatten(ws)
    ensures FeedAll(f, [], chunks) == Done(ms, [])
  {
    EmptySettled(f);
    hide Scan, FeedAll, AllCarry;
    ChunkingInvariance(f, [], chunks);
    CarriedInOrder(f, ws, ms, []);
    assert [] + Flatten(chunks) == Flatten(ws) + [];
    assert ms + [] == ms;
  }

  /** Every deliverable packet that can be printed can be encoded. */
  lemma DeliverableEncodes(f: Framing, p: Pkt)
    requires InUse(f) && Deliverable(f, p) && |p.payload| <= Packet.MAX_PAYLOAD
    ensures Encode(f, p).Ok?
  {
    var m := Packet.Marshal(p).value;
    hide Packet.Marshal, EncodeOuter, Encrypt;
    MarshalBounds(p, m);
    PrintedEncodes(f, m);
  }

  // A printed packet can be encoded whenever its encrypted length is one a frame can announce.
  lemma PrintedEncodes(f: Framing, m: bytes)
    requires InUse(f) && 5 <= |m| <= MAX_PACKET
    requires f == Outer(None) ==> |m| <= MAX_FRAME_PAYLOAD
    requires f.Outer? && f.encryption.Some? ==> Type7Len(|m|) <= MAX_FRAME_PAYLOAD
    ensures match f
            case Outer(encryption) => EncodeOuter(encryption, 1, m).Ok?
            case Passthrough => true
            case RawHeader(e) => Encrypt(e, m[5..]).Ok?
  {
    hide Encrypt, MarshalFrame, Type7Len;
    match f
    case Outer(None) => Framed(1, m);
    case Outer(Some(e)) =>
      Type7Inverts(e.cipher, m);
      Framed(1, Encrypt(e, m).value);
    case RawHeader(e) => Type1Inverts(e.cipher, m[5..]);
    case Passthrough =>
  }

  lemma Framed(frameType: byte, body: bytes)
    requires |body| <= MAX_FRAME_PAYLOAD
    ensures MarshalFrame(frameType, body).Ok?
  {
    hide UnsealedFrame, Crc16, PutWord;
  }

  predicate Sent(f: Framing, ps: seq<Pkt>, ws: seq<bytes>, ms: seq<bytes>) {
    && |ps| == |ws| == |ms|
    && forall i :: 0 <= i < |ps| ==>
         Encode(f, ps[i]) == Ok(ws[i]) && Packet.Marshal(ps[i]) == Ok(ms[i]) && Deliverable(f, ps[i])
  }

  lemma SentIsCarried(f: Framing, ps: seq<Pkt>, ws: seq<bytes>, ms: seq<bytes>)
    requires InUse(f) && Sent(f, ps, ws, ms)
    ensures AllCarry(f, ws, ms)
  {
    hide Encode, Packet.Marshal, Deliverable, InUse, Carries;
    forall i | 0 <= i < |ws|
      ensures Carries(f, ws[i], ms[i])
    {
      PacketCarried(f, ps[i], ws[i], ms[i]);
    }
  }

  lemma PacketCarried(f: Framing, p: Pkt, w: bytes, m: bytes)
    requires InUse(f) && Encode(f, p) == Ok(w) && Packet.Marshal(p) == Ok(m) && Deliverable(f, p)
    ensures Carries(f, w, m)
  {
    hide Judge, StartsAt, Encode, Packet.Marshal, Deliverable, InUse;
    forall t
      ensures CarriesBefore(f, w, m, t)
    {
      Recognised(f, p, m, w, t);
    }
  }

  /** Deliverable packets arrive as they were printed, in order, with nothing left over. */
  lemma PacketsDelivered(f: Framing, ps: seq<Pkt>, ws: seq<bytes>, ms: seq<bytes>, chunks: seq<bytes>)
    requires InUse(f) && Sent(f, ps, ws, ms) && Flatten(chunks) == Flatten(ws)
    ensures FeedAll(f, [], chunks) == Done(ms, [])
  {
    hide Sent, FeedAll, InUse, AllCarry;
    SentIsCarried(f, ps, ws, ms);
    Carried(f, ws, ms, chunks);
  }

  /** The packets a receiver reads from payloads; what does not parse is dropped. */
  function Parsed(payloads: seq<bytes>, xorPayload: bool): seq<Pkt> {
    if payloads == [] then []
    else
      match Packet.Parse(payloads[0], xorPayload)
      case Ok(p) => [p] + Parsed(payloads[1..], xorPayload)
      case Err(_) => Parsed(payloads[1..], xorPayload)
  }

  /** The receiver ends up with exactly the packets sent, writer's defaults filled in. */
  lemma EndToEnd(f: Framing, ps: seq<Pkt>, xorPayload: bool, ws: seq<bytes>, ms: seq<bytes>, chunks: seq<bytes>)
    requires InUse(f) && Flatten(chunks) == Flatten(ws)
    requires Sent(f, AllMasked(ps, xorPayload), ws, ms)
    requires forall i :: 0 <= i < |ps| ==> Survives(ps[i])
    ensures FeedAll(f, [], chunks) == Done(ms, [])
    ensures Parsed(ms, xorPayload) == AllDefaulted(ps)
  {
    hide FeedAll, InUse, Encode, Packet.Marshal, Packet.Parse, Deliverable, Survives;
    PacketsDelivered(f, AllMasked(ps, xorPayload), ws, ms, chunks);
    forall i | 0 <= i < |ps|
      ensures Packet.Parse(ms[i], xorPayload) == Ok(Defaulted(ps[i]))
    {
      assert AllMasked(ps, xorPayload)[i] == Masked(ps[i], xorPayload);
      RoundTrip(ps[i], xorPayload, ms[i]);
    }
    ParsedInOrder(ms, xorPayload, AllDefaulted(ps));
  }

  lemma {:induction false} ParsedInOrder(ms: seq<bytes>, xorPayload: bool, qs: seq<Pkt>)
    requires |ms| == |qs| && forall i :: 0 <= i < |ms| ==> Packet.Parse(ms[i], xorPayload) == Ok(qs[i])
    ensures Parsed(ms, xorPayload) == qs
  {
    hide Packet.Parse;
    if ms != [] {
      ParsedInOrder(ms[1..], xorPayload, qs[1..]);
      assert qs == [qs[0]] + qs[1..];
    }
  }

  // ----- Handshake frames -----

  /** Handshake messages of up to 9998 bytes, and only those, are recognised. */
  lemma HandshakeRecognised(payload: bytes, w: bytes, t: bytes)
    requires MarshalFrame(0, payload) == Ok(w)
    ensures StartsAt(Outer(None), w + t, 0)
    ensures Judge(Outer(None), w + t) == Emit(payload, |w|) <==> |payload| <= MAX_LENGTH - 2
  {
    OuterRecognised(None, 0, payload, w, t);
  }

  // ----- Frames after a stray mark -----

  /**
   * Among bytes in which no frame starts, exactly those that end in half a mark cost the packet sent
   * after them: it is emitted where it starts if and only if they leave nothing.
   */
  lemma SentAfterQuiet(encryption: Option<Strategy>, p: Pkt, m: bytes, w: bytes, quiet: bytes, t: bytes)
    requires var f := Outer(encryption); InUse(f) && Encode(f, p) == Ok(w) && Deliverable(f, p)
    requires Packet.Marshal(p) == Ok(m) && FirstStart(Outer(encryption), quiet, 0) == |quiet|
    ensures var f := Outer(encryption);
            EmitsAt(Emitted(f, quiet + (w + t), 0), |quiet|) <==> Leftover(f, quiet) == []
  {
    hide Scan, ScanFrame, FirstStart, Judge, StartsAt, Encode, Deliverable, InUse, Packet.Marshal, Emitted, EmitsAt,
      Clears;
    var f := Outer(encryption);
    Recognised(f, p, m, w, t);
    ScanTurn(f, quiet);
    EmittedIff(f, quiet, w + t);
    LeftoverClears(encryption, quiet, w + t);
  }

  // Half a mark never lets a frame through: the place it makes is rejected two bytes on, inside the frame.
  lemma LeftoverClears(encryption: Option<Strategy>, s: bytes, u: bytes)
    requires StartsAt(Outer(encryption), u, 0)
    ensures Clears(Outer(encryption), Leftover(Outer(encryption), s), u) <==> Leftover(Outer(encryption), s) == []
  {
    hide Judge, Scan, ClearsFrom;
    HalfMark(encryption, u);
    OuterSizes(encryption, [MARK] + u);
  }

  /** The length that scanning reads one byte too early. */
  function StrayLen(body: bytes): nat {
    1 + 0x100 * ((|body| + 2) % 0x100)
  }

  /**
   * After a stray mark byte no frame is emitted where it starts. Scanning stands one byte early and
   * reads a length of its own making there: it rejects the place at once, or withholds everything until
   * that many bytes have come.
   */
  lemma StrayMarkHidesFrame(encryption: Option<Strategy>, frameType: byte, body: bytes, w: bytes, t: bytes)
    requires MarshalFrame(frameType, body) == Ok(w)
    ensures var f, d := Outer(encryption), [MARK] + (w + t);
            && StartsAt(f, d, 0) && Scan(f, d) == ScanFrame(f, d)
            && !EmitsAt(Emitted(f, d, 0), 1)
            && (StrayLen(body) < MIN_LENGTH || StrayLen(body) > MAX_LENGTH ==>
                  Judge(f, d) == Skip(2) && Scan(f, d) == Scan(f, w[1..] + t))
            && (MIN_LENGTH <= StrayLen(body) <= MAX_LENGTH ==>
                  (Judge(f, d) == Wait <==> |d| < 6 + StrayLen(body)))
  {
    hide Crc16, GetWord, GetLength, Decrypt, MarshalFrame, Scan, ScanFrame, Emitted, EmitsAt, Judge;
    var f, d := Outer(encryption), [MARK] + (w + t);
    StrayJudged(encryption, frameType, body, w, t);
    ScanAtStart(f, d);
    FrameTurn(f, d);
    NoneAfterHalfMark(encryption, d);
    assert d[2..] == w[1..] + t;
  }

  lemma StrayJudged(encryption: Option<Strategy>, frameType: byte, body: bytes, w: bytes, t: bytes)
    requires MarshalFrame(frameType, body) == Ok(w)
    ensures var f, d := Outer(encryption), [MARK] + (w + t);
            && d[0] == MARK && d[1] == MARK && d[2] == MARK && StartsAt(f, d, 0) && |w| == 8 + |body|
            && (StrayLen(body) < MIN_LENGTH || StrayLen(body) > MAX_LENGTH ==> Judge(f, d) == Skip(2))
            && (MIN_LENGTH <= StrayLen(body) <= MAX_LENGTH ==>
                  (Judge(f, d) == Wait <==> |d| < 6 + StrayLen(body)))
  {
    hide Crc16, GetWord, GetLength, Decrypt, MarshalFrame, Judge;
    StrayHeader(frameType, body, w);
    var d := [MARK] + (w + t);
    assert d[4..6] == [w[3], w[4]];
    StrayLength(w[3], w[4]);
    JudgedByLength(encryption, d);
  }

  lemma StrayLength(lo: byte, hi: byte)
    ensures GetLength([lo, hi]) == lo as nat + 0x100 * hi as nat
  {}

  // How an outer header's length field alone decides.
  lemma JudgedByLength(encryption: Option<Strategy>, d: bytes)
    requires |d| >= 8 && StartsAt(Outer(encryption), d, 0)
    ensures var len, v := GetLength(d[4..6]), Judge(Outer(encryption), d);
            && (len < MIN_LENGTH || len > MAX_LENGTH ==> v == Skip(2))
            && (MIN_LENGTH <= len <= MAX_LENGTH ==> (v == Wait <==> |d| < 6 + len))
  {
    hide Crc16, GetWord, GetLength, Decrypt;
  }

  lemma StrayHeader(frameType: byte, body: bytes, w: bytes)
    requires MarshalFrame(frameType, body) == Ok(w)
    ensures |w| == 8 + |body| && w[0] == MARK && w[1] == MARK
    ensures w[3] == 1 && w[4] as int == (|body| + 2) % 0x100
  {
    hide Crc16, PutWord;
    var u := UnsealedFrame(frameType, body);
    assert w[0] == u[0] && w[1] == u[1] && w[3] == u[3] && w[4] == u[4];
  }

  // From a mark at the front, nothing is emitted one byte on.
  lemma NoneAfterHalfMark(encryption: Option<Strategy>, d: bytes)
    requires StartsAt(Outer(encryption), d, 0)
    ensures !EmitsAt(Emitted(Outer(encryption), d, 0), 1)
  {
    hide Judge, StartsAt, Emitted, EmitsAt;
    FromStart(Outer(encryption), d, 1);
    OuterSizes(encryption, d);
  }
}
