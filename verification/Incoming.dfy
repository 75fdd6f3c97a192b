/** What devices send: whole packets of every version, and the replies that carry their own terminator. */
module Incoming {
  import opened Bytes
  import opened Crc
  import opened Encryption
  import opened Framing
  import opened Reassembly
  import opened PacketTheorems
  import opened StreamRoundTrip
  import Packet

  // ----- How long a packet is -----

  /** The length of a packet of version v with n payload bytes, a terminator counted among them. */
  function FrameLen(v: byte, n: nat): nat {
    if v == 4 then 10 + n
    else (if v % 0x10 >= 3 then 18 else 16) + n + (if v / 0x10 % 2 == 1 then 0 else 2)
  }

  /** Framing and parsing agree about the length of every packet that can be parsed. */
  lemma BodyLengths(v: byte, n: nat)
    ensures 5 + Packet.PacketBodyLen(v, n) == FrameLen(v, n)
    ensures v != 4 ==> Packet.TotalLen(v, n) == FrameLen(v, n)
  {}

  function PayloadLen(d: bytes): nat
    requires |d| >= 4
  {
    d[2] as nat + 0x100 * d[3] as nat
  }

  /** d begins with an intact packet header. */
  predicate HeaderFits(d: bytes) {
    |d| >= 5 && d[0] == 0xAA && d[4] == Crc8(d[..4])
  }

  /** The parser's first objection, in its order; none means a packet. */
  lemma ParserObjections(d: bytes)
    ensures Packet.Defect(d) ==
            if |d| < 5 || d[0] != 0xAA then Some(BadPrefix)
            else if d[1] == 4 then Some(UnsupportedV4)
            else if d[4] != Crc8(d[..4]) then Some(BadHeaderCheck)
            else
              var size := FrameLen(d[1], PayloadLen(d));
              if |d| < size then Some(Incomplete)
              else if d[1] / 0x10 % 2 == 0 && GetWord(d[size - 2..size]) != Crc16(d[..size - 2]) then Some(BadChecksum)
              else None
  {
    hide Crc8, Crc16, GetWord;
    if |d| >= 5 {
      BodyLengths(d[1], PayloadLen(d));
      assert d[2..4] == [d[2], d[3]];
    }
  }

  // ----- Replies that end in their own terminator -----

  /** w is the frame on the wire of a sentinel packet p whose payload field holds body, masked. */
  predicate SentinelFrame(w: bytes, p: Pkt, body: bytes, xorPayload: bool) {
    var wide := p.version % 0x10 >= 3;
    var start := if wide then 18 else 16;
    && p.version / 0x10 % 2 == 1
    && |w| == start + |body| && HeaderFits(w) && w[1] == p.version && PayloadLen(w) == |body|
    && w[5] == p.productId && w[6..10] == p.seqNo && w[12] == p.src && w[13] == p.dst
    && (if wide then w[14] == p.dSrc && w[15] == p.dDst else p.dSrc == 0 && p.dDst == 0)
    && w[start - 2] == p.cmdSet && w[start - 1] == p.cmdId
    && forall i :: 0 <= i < |body| ==> w[start + i] == if xorPayload then XorByte(body[i], w[6]) else body[i]
  }

  /** The frame, byte by byte. */
  function SentinelBytes(p: Pkt, body: bytes, xorPayload: bool): bytes
    requires |body| < 0x1_0000
  {
    SentinelHeader(p.version, |body|) + SentinelFields(p) + Packet.Mask(body, if xorPayload then p.seqNo[0] else 0)
  }

  function SentinelHeader(v: byte, n: nat): (h: bytes)
    requires n < 0x1_0000
    ensures |h| == 5
  {
    var h := [0xAA, v, (n % 0x100) as byte, (n / 0x100) as byte];
    h + [Crc8(h)]
  }

  function SentinelFields(p: Pkt): (s: bytes)
    ensures |s| == if p.version % 0x10 >= 3 then 13 else 11
  {
    [p.productId] + p.seqNo + [0, 0, p.src, p.dst]
    + (if p.version % 0x10 >= 3 then [p.dSrc, p.dDst] else []) + [p.cmdSet, p.cmdId]
  }

  lemma SentinelHeaderFits(v: byte, n: nat, t: bytes)
    requires n < 0x1_0000
    ensures var w := SentinelHeader(v, n) + t; HeaderFits(w) && w[1] == v && PayloadLen(w) == n
  {
    hide Crc8;
    var h, w := SentinelHeader(v, n), SentinelHeader(v, n) + t;
    assert w[..4] == h[..4] == [0xAA, v, (n % 0x100) as byte, (n / 0x100) as byte];
  }

  lemma SentinelBytesFit(p: Pkt, body: bytes, xorPayload: bool)
    requires |body| < 0x1_0000 && p.version / 0x10 % 2 == 1
    requires p.version % 0x10 < 3 ==> p.dSrc == 0 && p.dDst == 0
    ensures SentinelFrame(SentinelBytes(p, body, xorPayload), p, body, xorPayload)
  {
    hide HeaderFits, XorByte, Packet.Mask, PayloadLen, SentinelHeader, SentinelFields;
    var key := if xorPayload then p.seqNo[0] else 0;
    var h, t := SentinelHeader(p.version, |body|), Packet.Mask(body, key);
    var w := SentinelBytes(p, body, xorPayload);
    assert w == h + (SentinelFields(p) + t);
    SentinelHeaderFits(p.version, |body|, SentinelFields(p) + t);
    FieldsFit(p, h, t);
    MaskedFrom(body, key);
  }

  // Where the fields lie between a header and a payload.
  lemma FieldsFit(p: Pkt, h: bytes, t: bytes)
    requires |h| == 5
    ensures var w, start := h + (SentinelFields(p) + t), if p.version % 0x10 >= 3 then 18 else 16;
            && |w| == start + |t| && (forall i :: 0 <= i < |t| ==> w[start + i] == t[i])
            && w[5] == p.productId && w[6..10] == p.seqNo && w[6] == p.seqNo[0] && w[12] == p.src && w[13] == p.dst
            && (p.version % 0x10 >= 3 ==> w[14] == p.dSrc && w[15] == p.dDst)
            && w[start - 2] == p.cmdSet && w[start - 1] == p.cmdId
  {
    var f := SentinelFields(p);
    var w := h + (f + t);
    assert forall i :: 0 <= i < |f| ==> w[5 + i] == f[i];
    assert w[6..10] == f[1..5] == p.seqNo;
  }

  lemma MaskedFrom(body: bytes, key: byte)
    ensures forall i :: 0 <= i < |body| ==> Packet.Mask(body, key)[i] == XorByte(body[i], key)
    ensures key == 0 ==> Packet.Mask(body, key) == body
  {
    hide XorByte;
    Packet.MaskZero(body);
  }

  /** The payload field as the parser unmasks it. */
  lemma Unmasked(w: bytes, p: Pkt, body: bytes, xorPayload: bool)
    requires SentinelFrame(w, p, body, xorPayload)
    ensures var start := if p.version % 0x10 >= 3 then 18 else 16;
            Packet.Mask(w[start..start + |body|], if xorPayload then w[6] else 0) == body
  {
    hide HeaderFits, PayloadLen, XorByte, Packet.Mask;
    var start := if p.version % 0x10 >= 3 then 18 else 16;
    var key := if xorPayload then w[6] else 0;
    MaskedFrom(body, key);
    assert w[start..start + |body|] == Packet.Mask(body, key);
    Packet.MaskCancels(body, key);
  }

  lemma SentinelAccepted(w: bytes, p: Pkt, body: bytes, xorPayload: bool)
    requires SentinelFrame(w, p, body, xorPayload)
    ensures Packet.Defect(w) == None
  {
    hide Crc8, Crc16, GetWord;
    ParserObjections(w);
  }

  /** A reply with its terminator is read as the packet without it. */
  lemma TerminatedReply(w: bytes, p: Pkt, xorPayload: bool)
    requires SentinelFrame(w, p, p.payload + [0xBB, 0xBB], xorPayload)
    ensures Packet.Parse(w, xorPayload) == Ok(p)
  {
    hide Crc8, Packet.Defect, Packet.Mask;
    var body := p.payload + [0xBB, 0xBB];
    SentinelAccepted(w, p, body, xorPayload);
    Unmasked(w, p, body, xorPayload);
    assert body[|body| - 2..] == [0xBB, 0xBB] && body[..|body| - 2] == p.payload;
    assert w[2..4] == [w[2], w[3]];
  }

  /** A reply without one is read as it is. */
  lemma UnterminatedReply(w: bytes, p: Pkt, xorPayload: bool)
    requires SentinelFrame(w, p, p.payload, xorPayload) && !EndsInTwo(p.payload, 0xBB)
    ensures Packet.Parse(w, xorPayload) == Ok(p)
  {
    hide Crc8, Packet.Defect, Packet.Mask;
    SentinelAccepted(w, p, p.payload, xorPayload);
    Unmasked(w, p, p.payload, xorPayload);
    TerminatorIs(p.payload);
    assert w[2..4] == [w[2], w[3]];
  }

  // ----- Whole packets on the wire -----

  /** m is one packet, header intact and of exactly the length its header says. */
  predicate Whole(m: bytes) {
    HeaderFits(m) && |m| == FrameLen(m[1], PayloadLen(m))
  }

  /** What each framing puts on the wire for it. */
  function Wire(f: Framing, m: bytes): Result<bytes>
    requires |m| >= 5
  {
    match f
    case Outer(encryption) => EncodeOuter(encryption, 1, m)
    case Passthrough => Ok(m)
    case RawHeader(e) =>
      match Encrypt(e, m[5..])
      case Err(error) => Err(error)
      case Ok(body) => Ok(m[..5] + body)
  }

  /** Short enough for an outer frame's length field; the packet framings have no limit of their own. */
  predicate Fits(f: Framing, m: bytes) {
    match f
    case Outer(None) => |m| <= 9998
    case Outer(Some(_)) => |m| + (16 - |m| % 16) <= 9998
    case _ => true
  }

  lemma WholeJudged(m: bytes, d: bytes)
    requires Whole(m) && |d| >= 5 && d[..5] == m[..5]
    ensures d[0] == 0xAA && Crc8(d[..4]) == d[4] && 5 + InnerLen(d) == |m| <= MAX_PACKET
  {
    hide Crc8;
    BodyLengths(m[1], PayloadLen(m));
    assert d[..4] == d[..5][..4] == m[..5][..4] == m[..4];
    assert d[0] == d[..5][0] && d[1] == d[..5][1] && d[4] == d[..5][4];
    assert d[2] == d[..5][2] && d[3] == d[..5][3] && d[2..4] == [m[2], m[3]];
  }

  /** Every whole packet, of whatever version, is carried by every framing that has room for it. */
  lemma WholeCarried(f: Framing, m: bytes, w: bytes)
    requires InUse(f) && Whole(m) && Fits(f, m) && Wire(f, m) == Ok(w)
    ensures Carries(f, w, m)
  {
    hide Judge, StartsAt, Whole, Wire, Fits, InUse;
    forall t
      ensures CarriesBefore(f, w, m, t)
    {
      WholeCarriedBefore(f, m, w, t);
    }
  }

  lemma WholeCarriedBefore(f: Framing, m: bytes, w: bytes, t: bytes)
    requires InUse(f) && Whole(m) && Fits(f, m) && Wire(f, m) == Ok(w)
    ensures CarriesBefore(f, w, m, t)
  {
    hide Crc8, Judge, Encrypt, Decrypt, EncodeOuter, FrameLen, StartsAt;
    match f
    case Outer(encryption) => WholeInOuter(encryption, m, w, t);
    case Passthrough => WholeBare(m, t);
    case RawHeader(e) => WholeRaw(e, m, w, t);
  }

  lemma WholeInOuter(encryption: Option<Strategy>, m: bytes, w: bytes, t: bytes)
    requires InUse(Outer(encryption)) && Fits(Outer(encryption), m) && EncodeOuter(encryption, 1, m) == Ok(w)
    ensures CarriesBefore(Outer(encryption), w, m, t)
  {
    hide Crc8, Crc16, GetWord, Judge, StartsAt, Decrypt, Encrypt, MarshalFrame;
    match encryption
    case None =>
      OuterLayout(1, m, w);
      OuterRecognised(encryption, 1, m, w, t);
    case Some(e) =>
      Type7Inverts(e.cipher, m);
      var body := Encrypt(e, m).value;
      OuterLayout(1, body, w);
      OuterRecognised(encryption, 1, body, w, t);
  }

  lemma WholeBare(m: bytes, t: bytes)
    requires Whole(m)
    ensures CarriesBefore(Passthrough, m, m, t)
  {
    hide Crc8, Whole, InnerLen, JudgePacket;
    WholeLong(m);
    FirstFive(m, t);
    WholeJudged(m, m + t);
    PacketJudged(m, t);
  }

  lemma WholeLong(m: bytes)
    requires Whole(m)
    ensures |m| >= 10
  {
    hide Crc8;
  }

  lemma WholeRaw(e: Strategy, m: bytes, w: bytes, t: bytes)
    requires e.Type1? && Whole(m) && |m| >= 5 && Encrypt(e, m[5..]).Ok? && w == m[..5] + Encrypt(e, m[5..]).value
    ensures CarriesBefore(RawHeader(e), w, m, t)
  {
    hide Crc8, Whole, InnerLen, JudgeRaw, Encrypt;
    WholeLong(m);
    FirstFive(m[..5], Encrypt(e, m[5..]).value);
    FirstFive(w, t);
    WholeJudged(m, w + t);
    RawEmits(e, m, w, t);
  }

  /** Whole packets arrive as they were sent, in order, through any cutting, with nothing left over. */
  lemma IncomingDelivered(f: Framing, ms: seq<bytes>, ws: seq<bytes>, chunks: seq<bytes>)
    requires InUse(f) && |ws| == |ms| && Flatten(chunks) == Flatten(ws)
    requires forall i :: 0 <= i < |ms| ==> Whole(ms[i]) && Fits(f, ms[i]) && Wire(f, ms[i]) == Ok(ws[i])
    ensures FeedAll(f, [], chunks) == Done(ms, [])
  {
    hide InUse, Whole, Fits, Wire, FeedAll, Carries;
    forall i | 0 <= i < |ws|
      ensures Carries(f, ws[i], ms[i])
    {
      WholeCarried(f, ms[i], ws[i]);
    }
    Carried(f, ws, ms, chunks);
  }

  /** So a receiver of terminated replies ends up with exactly the packets the device meant. */
  lemma RepliesArrive(f: Framing, ps: seq<Pkt>, xorPayload: bool, ms: seq<bytes>, ws: seq<bytes>, chunks: seq<bytes>)
    requires InUse(f) && |ws| == |ms| == |ps| && Flatten(chunks) == Flatten(ws)
    requires forall i :: 0 <= i < |ps| ==> SentinelFrame(ms[i], ps[i], ps[i].payload + [0xBB, 0xBB], xorPayload)
    requires forall i :: 0 <= i < |ps| ==> |ms[i]| >= 5 && Fits(f, ms[i]) && Wire(f, ms[i]) == Ok(ws[i])
    ensures FeedAll(f, [], chunks) == Done(ms, []) && Parsed(ms, xorPayload) == ps
  {
    hide InUse, Fits, Wire, FeedAll, Whole, SentinelFrame, Packet.Parse;
    forall i | 0 <= i < |ps|
      ensures Whole(ms[i]) && Packet.Parse(ms[i], xorPayload) == Ok(ps[i])
    {
      SentinelWhole(ms[i], ps[i], ps[i].payload + [0xBB, 0xBB], xorPayload);
      TerminatedReply(ms[i], ps[i], xorPayload);
    }
    IncomingDelivered(f, ms, ws, chunks);
    ParsedInOrder(ms, xorPayload, ps);
  }

  lemma SentinelWhole(w: bytes, p: Pkt, body: bytes, xorPayload: bool)
    requires SentinelFrame(w, p, body, xorPayload)
    ensures Whole(w)
  {
    hide Crc8, XorByte;
  }

  // ----- The stream reader and the parser -----

  /** Where the parser finds a packet, the reader of bare packets emits exactly the bytes it takes. */
  lemma EmitsWhatParses(d: bytes, xorPayload: bool)
    requires Packet.Defect(d) == None
    ensures |d| >= 5
    ensures var size := FrameLen(d[1], PayloadLen(d));
            && size <= |d| && StartsAt(Passthrough, d, 0)
            && Judge(Passthrough, d) == Emit(d[..size], size)
            && Packet.Parse(d[..size], xorPayload) == Packet.Parse(d, xorPayload)
  {
    hide Crc8, Crc16, GetWord, Packet.Mask, Packet.StripTerminator;
    ParserObjections(d);
    var size := FrameLen(d[1], PayloadLen(d));
    var m := d[..size];
    PrefixSlice(d, size, 0, 4);
    PrefixSlice(d, size, 2, 4);
    PrefixSlice(d, size, size - 2, size);
    PrefixSlice(d, size, 0, size - 2);
    assert m[..4] == d[..4] && m[2..4] == [d[2], d[3]] && m[..size - 2] == d[..size - 2];
    ParserObjections(m);
    BodyLengths(d[1], PayloadLen(d));
    SameFill(d, size, xorPayload);
  }

  lemma SameFill(d: bytes, size: nat, xorPayload: bool)
    requires 5 <= size <= |d| && size >= Packet.TotalLen(d[1], GetLength(d[2..4]))
    ensures d[..size][2..4] == d[2..4]
    ensures Packet.Fill(d[..size], xorPayload) == Packet.Fill(d, xorPayload)
  {
    hide GetLength, Packet.Mask, Packet.StripTerminator, Packet.Sentinel;
    var n, start := GetLength(d[2..4]), Packet.PayloadStart(d[1]);
    PrefixSlice(d, size, 2, 4);
    PrefixSlice(d, size, 6, 10);
    PrefixSlice(d, size, start, start + n);
  }

  lemma PrefixSlice(d: bytes, size: nat, a: nat, b: nat)
    requires a <= b <= size <= |d|
    ensures d[..size][a..b] == d[a..b]
  {}

  /** Packets of version 4 are cut out of the stream at their own length and then refused. */
  lemma VersionFour(d: bytes, xorPayload: bool)
    requires HeaderFits(d) && d[1] == 4 && |d| >= 10 + PayloadLen(d)
    ensures StartsAt(Passthrough, d, 0)
    ensures Judge(Passthrough, d) == Emit(d[..10 + PayloadLen(d)], 10 + PayloadLen(d))
    ensures Packet.Parse(d[..10 + PayloadLen(d)], xorPayload) == Err(UnsupportedV4)
  {
    hide Crc8;
    assert d[2..4] == [d[2], d[3]];
    ParserObjections(d[..10 + PayloadLen(d)]);
  }
}
