/** How a stream of notifications is cut back into payloads, for every framing the daemon speaks. */
module Framing {
  import opened Bytes
  import opened Crc
  import opened Encryption
  import Packet

  const MARK: byte := 0x5A
  const MIN_LENGTH: nat := 2
  const MAX_LENGTH: nat := 10000
  const MAX_FRAME_PAYLOAD: nat := 0xFFFF - 2

  /** Outer frames with an optional encryption, bare packets, or packets with an encrypted body. */
  datatype Framing =
    | Outer(encryption: Option<Strategy>)
    | Passthrough
    | RawHeader(strategy: Strategy)

  // ----- The outer frame -----

  function UnsealedFrame(frameType: byte, payload: bytes): (s: bytes)
    requires |payload| <= MAX_FRAME_PAYLOAD
    ensures |s| == 6 + |payload|
  {
    [MARK, MARK, (frameType as int * 0x10 % 0x100) as byte, 1] + PutLength(|payload| + 2) + payload
  }

  function MarshalFrame(frameType: byte, payload: bytes): Result<bytes> {
    if |payload| > MAX_FRAME_PAYLOAD then Err(FrameTooLarge)
    else Ok(UnsealedFrame(frameType, payload) + PutWord(Crc16(UnsealedFrame(frameType, payload))))
  }

  method MarshalEncPacket(frameType: byte, payload: bytes) returns (r: Result<bytes>)
    ensures r == MarshalFrame(frameType, payload)
  {
    hide Crc16, PutWord, PutLength;
    if |payload| > MAX_FRAME_PAYLOAD {
      return Err(FrameTooLarge);
    }
    var buf: bytes := [MARK, MARK];
    buf := buf + [(frameType as int * 0x10 % 0x100) as byte];
    buf := buf + [1];
    buf := buf + PutLength(|payload| + 2);
    buf := buf + payload;
    assert buf == UnsealedFrame(frameType, payload);
    var crc := Crc16ARC(buf);
    buf := buf + PutWord(crc);
    return Ok(buf);
  }

  // ----- One decision -----

  predicate StartsAt(f: Framing, s: bytes, i: nat) {
    if f.Outer? then i + 1 < |s| && s[i] == MARK && s[i + 1] == MARK
    else i < |s| && s[i] == Packet.PREFIX
  }

  /** The first possible frame start at or after i, or |s|. */
  function FirstStart(f: Framing, s: bytes, i: nat): (k: nat)
    requires i <= |s|
    ensures i <= k <= |s|
    ensures k < |s| ==> StartsAt(f, s, k) && StartsAt(f, s[k..], 0)
    ensures forall j :: i <= j < k ==> !StartsAt(f, s, j)
    decreases |s| - i
  {
    if i == |s| || StartsAt(f, s, i) then i else FirstStart(f, s, i + 1)
  }

  /** What to do with bytes that begin with a possible start. */
  datatype Verdict =
    | Wait
    | Skip(n: nat)
    | Emit(payload: bytes, n: nat)
    | Fail(error: Error)

  function Judge(f: Framing, d: bytes): (v: Verdict)
    requires StartsAt(f, d, 0)
    ensures v.Skip? ==> 1 <= v.n <= |d|
    ensures v.Emit? ==> 1 <= v.n <= |d|
  {
    match f
    case Outer(encryption) => JudgeOuter(encryption, d)
    case Passthrough => JudgePacket(d)
    case RawHeader(e) => JudgeRaw(e, d)
  }

  function JudgeOuter(encryption: Option<Strategy>, d: bytes): (v: Verdict)
    requires |d| >= 2
    ensures v.Skip? ==> v.n == 2
    ensures v.Emit? ==> 1 <= v.n <= |d|
  {
    if |d| < 8 then Wait
    else
      var payloadLen := GetLength(d[4..6]);
      var size := 6 + payloadLen;
      if payloadLen < MIN_LENGTH || payloadLen > MAX_LENGTH then Skip(2)
      else if |d| < size then Wait
      else if Crc16(d[..size - 2]) != GetWord(d[size - 2..size]) then Skip(2)
      else if encryption.None? then Emit(d[6..size - 2], size)
      else
        match Decrypt(encryption.value, d[6..size - 2])
        case Err(error) => Fail(error)
        case Ok(payload) => Emit(payload, size)
  }

  function InnerLen(d: bytes): nat
    requires |d| >= 5
  {
    Packet.PacketBodyLen(d[1], GetLength(d[2..4]))
  }

  function JudgePacket(d: bytes): (v: Verdict)
    requires |d| >= 1
    ensures v.Skip? ==> v.n == 1
    ensures v.Emit? ==> 1 <= v.n <= |d|
  {
    if |d| < 5 then Wait
    else if Crc8(d[..4]) != d[4] then Skip(1)
    else if |d| < 5 + InnerLen(d) then Wait
    else Emit(d[..5 + InnerLen(d)], 5 + InnerLen(d))
  }

  function JudgeRaw(e: Strategy, d: bytes): (v: Verdict)
    requires |d| >= 1
    ensures v.Skip? ==> v.n == 1
    ensures v.Emit? ==> 1 <= v.n <= |d|
  {
    if |d| < 5 then Wait
    else if Crc8(d[..4]) != d[4] then Skip(1)
    else
      var innerLen := InnerLen(d);
      var size := 5 + RoundUp(innerLen);
      if |d| < size then Wait
      else
        match Decrypt(e, d[5..size])
        case Err(error) => Fail(error)
        case Ok(body) =>
          if |body| < innerLen then Fail(BodyTooShort)
          else Emit(d[..5] + body[..innerLen], size)
  }

  // ----- The whole stream -----

  datatype Outcome = Done(payloads: seq<bytes>, buffer: bytes) | Failed(error: Error)

  /** What is kept when nothing looks like a start: a possible first half of the two-byte mark. */
  function Leftover(f: Framing, s: bytes): bytes {
    if f.Outer? && s != [] && s[|s| - 1] == MARK then [MARK] else []
  }

  function Prepend(payloads: seq<bytes>, o: Outcome): Outcome {
    match o
    case Done(more, buffer) => Done(payloads + more, buffer)
    case Failed(error) => Failed(error)
  }

  function Scan(f: Framing, s: bytes): Outcome
    decreases |s|, 1
  {
    var start := FirstStart(f, s, 0);
    if start == |s| then Done([], Leftover(f, s)) else ScanFrame(f, s[start..])
  }

  function ScanFrame(f: Framing, d: bytes): Outcome
    requires StartsAt(f, d, 0)
    decreases |d|, 0
  {
    match Judge(f, d)
    case Wait => Done([], d)
    case Skip(n) => Scan(f, d[n..])
    case Emit(payload, n) => Prepend([payload], Scan(f, d[n..]))
    case Fail(error) => Failed(error)
  }

  // One turn of scanning, with the two functions unfolded once each.
  lemma ScanTurn(f: Framing, s: bytes)
    ensures var k := FirstStart(f, s, 0);
            Scan(f, s) == if k == |s| then Done([], Leftover(f, s)) else ScanFrame(f, s[k..])
  {
    hide ScanFrame, FirstStart, Leftover;
  }

  lemma FrameTurn(f: Framing, d: bytes)
    requires StartsAt(f, d, 0)
    ensures var v, o := Judge(f, d), ScanFrame(f, d);
            && (v.Wait? ==> o == Done([], d))
            && (v.Skip? ==> o == Scan(f, d[v.n..]))
            && (v.Emit? ==> o == Prepend([v.payload], Scan(f, d[v.n..])))
            && (v.Fail? ==> o == Failed(v.error))
  {
    hide Scan, Judge, StartsAt, Prepend;
  }

  // ----- Decisions are stable under extension -----

  lemma FirstStartIs(f: Framing, s: bytes, k: nat)
    requires StartsAt(f, s, k)
    requires forall j :: 0 <= j < k ==> !StartsAt(f, s, j)
    ensures FirstStart(f, s, 0) == k
  {}

  lemma JudgeStable(f: Framing, d: bytes, t: bytes)
    requires StartsAt(f, d, 0)
    ensures StartsAt(f, d + t, 0)
    ensures !Judge(f, d).Wait? ==> Judge(f, d + t) == Judge(f, d)
  {
    hide Crc8, Crc16, GetWord, Decrypt, Packet.PacketBodyLen;
    var e := d + t;
    if |d| >= 5 {
      assert e[..4] == d[..4] && e[2..4] == d[2..4] && e[..5] == d[..5];
    }
    if f.Outer? {
      if |d| >= 8 {
        assert e[4..6] == d[4..6];
        var size := 6 + GetLength(d[4..6]);
        if 8 <= size <= |d| {
          assert e[..size - 2] == d[..size - 2] && e[size - 2..size] == d[size - 2..size];
          assert e[6..size - 2] == d[6..size - 2];
        }
      }
    } else if |d| >= 5 {
      var size := if f.Passthrough? then 5 + InnerLen(d) else 5 + RoundUp(InnerLen(d));
      if size <= |d| {
        assert e[..size] == d[..size] && e[5..size] == d[5..size];
      }
    }
  }

  /** Bytes in which no frame can start, and after which none is half begun, change nothing. */
  predicate Noise(f: Framing, g: bytes) {
    && (forall i :: 0 <= i < |g| ==> !StartsAt(f, g, i))
    && Leftover(f, g) == []
  }

  lemma StartsAfterNoise(f: Framing, g: bytes, s: bytes, i: nat)
    requires Noise(f, g)
    ensures StartsAt(f, g + s, i) <==> i >= |g| && StartsAt(f, s, i - |g|)
  {
    if i < |g| {
      assert !StartsAt(f, g, i);
      assert i + 1 == |g| ==> (g + s)[i] == g[|g| - 1];
    }
  }

  lemma LeftoverAfterNoise(f: Framing, g: bytes, s: bytes)
    requires Noise(f, g)
    ensures Leftover(f, g + s) == Leftover(f, s)
  {
    if s == [] {
      assert g + s == g;
    } else {
      assert (g + s)[|g + s| - 1] == s[|s| - 1];
    }
  }

  lemma StartAfterNoise(f: Framing, g: bytes, s: bytes)
    requires Noise(f, g)
    ensures FirstStart(f, g + s, 0) == |g| + FirstStart(f, s, 0)
  {
    hide StartsAt, Noise;
    var e, k, m := g + s, FirstStart(f, s, 0), FirstStart(f, g + s, 0);
    if m < |g| + k {
      StartsAfterNoise(f, g, s, m);
    } else if k < |s| {
      StartsAfterNoise(f, g, s, |g| + k);
    }
  }

  lemma NoiseShiftsStart(f: Framing, g: bytes, s: bytes)
    requires Noise(f, g)
    ensures FirstStart(f, g + s, 0) == |g| + FirstStart(f, s, 0)
    ensures (g + s)[FirstStart(f, g + s, 0)..] == s[FirstStart(f, s, 0)..]
    ensures Leftover(f, g + s) == Leftover(f, s)
  {
    hide StartsAt, Noise, Leftover;
    LeftoverAfterNoise(f, g, s);
    StartAfterNoise(f, g, s);
    DropNoise(g, s, FirstStart(f, s, 0));
  }

  lemma DropNoise(g: bytes, s: bytes, k: nat)
    requires k <= |s|
    ensures (g + s)[|g| + k..] == s[k..]
  {}

  lemma NoiseSkipped(f: Framing, g: bytes, s: bytes)
    requires Noise(f, g)
    ensures Scan(f, g + s) == Scan(f, s)
  {
    hide ScanFrame, Judge, Noise, StartsAt, Leftover, FirstStart;
    NoiseShiftsStart(f, g, s);
  }

  lemma LeftoverFits(f: Framing, s: bytes)
    ensures |Leftover(f, s)| <= |s|
  {}

  // ----- Scanning may stop anywhere and resume -----

  function ThenScan(f: Framing, o: Outcome, t: bytes): Outcome {
    match o
    case Done(payloads, buffer) => Prepend(payloads, Scan(f, buffer + t))
    case Failed(error) => Failed(error)
  }

  lemma PrependLaws(a: seq<bytes>, b: seq<bytes>, o: Outcome)
    ensures Prepend([], o) == o
    ensures Prepend(a, Prepend(b, o)) == Prepend(a + b, o)
  {
    if o.Done? {
      assert a + (b + o.payloads) == (a + b) + o.payloads;
    }
  }

  lemma ThenScanPrepend(f: Framing, a: seq<bytes>, o: Outcome, t: bytes)
    ensures ThenScan(f, Prepend(a, o), t) == Prepend(a, ThenScan(f, o, t))
  {
    hide Scan;
    if o.Done? {
      PrependLaws(a, o.payloads, Scan(f, o.buffer + t));
    }
  }

  lemma {:induction false} Resume(f: Framing, s: bytes, t: bytes)
    ensures Scan(f, s + t) == ThenScan(f, Scan(f, s), t)
    decreases |s|, 1
  {
    hide ScanFrame, Judge, StartsAt, Leftover;
    var k := FirstStart(f, s, 0);
    if k == |s| {
      ResumeQuiet(f, s, t);
    } else {
      FirstStartKept(f, s, t);
      assert (s + t)[k..] == s[k..] + t;
      ResumeFrame(f, s[k..], t);
    }
  }

  lemma {:induction false} ResumeFrame(f: Framing, d: bytes, t: bytes)
    requires StartsAt(f, d, 0)
    ensures StartsAt(f, d + t, 0)
    ensures ScanFrame(f, d + t) == ThenScan(f, ScanFrame(f, d), t)
    decreases |d|, 0
  {
    JudgeStable(f, d, t);
    hide Scan, Judge, StartsAt, Prepend, ThenScan, FirstStart;
    match Judge(f, d)
    case Wait =>
      ScanAtStart(f, d + t);
      ThenScanSettled(f, d, t);
    case Skip(n) =>
      DropConcat(d, n, t);
      Resume(f, d[n..], t);
    case Emit(payload, n) =>
      DropConcat(d, n, t);
      Resume(f, d[n..], t);
      ThenScanPrepend(f, [payload], Scan(f, d[n..]), t);
    case Fail(error) =>
      ThenScanFailed(f, error, t);
  }

  lemma DropConcat(d: bytes, n: nat, t: bytes)
    requires n <= |d|
    ensures (d + t)[n..] == d[n..] + t
  {}

  lemma ThenScanSettled(f: Framing, b: bytes, t: bytes)
    ensures ThenScan(f, Done([], b), t) == Scan(f, b + t)
  {
    hide Scan;
    PrependLaws([], [], Scan(f, b + t));
  }

  lemma ThenScanFailed(f: Framing, error: Error, t: bytes)
    ensures ThenScan(f, Failed(error), t) == Failed(error)
  {}

  lemma ScanAtStart(f: Framing, d: bytes)
    requires StartsAt(f, d, 0)
    ensures Scan(f, d) == ScanFrame(f, d)
  {
    hide ScanFrame;
    assert d[0..] == d;
  }

  lemma FirstStartHere(f: Framing, d: bytes)
    requires StartsAt(f, d, 0)
    ensures FirstStart(f, d, 0) == 0
  {}

  lemma FirstStartKept(f: Framing, s: bytes, t: bytes)
    requires FirstStart(f, s, 0) < |s|
    ensures FirstStart(f, s + t, 0) == FirstStart(f, s, 0)
  {
    var k := FirstStart(f, s, 0);
    forall j | 0 <= j < k
      ensures !StartsAt(f, s + t, j)
    {
      assert !StartsAt(f, s, j);
    }
    FirstStartIs(f, s + t, k);
  }

  // Nothing in s looks like a start; at most its last byte is kept.
  lemma ResumeQuiet(f: Framing, s: bytes, t: bytes)
    requires FirstStart(f, s, 0) == |s|
    ensures Scan(f, s + t) == Prepend([], Scan(f, Leftover(f, s) + t))
  {
    hide Scan, Noise, Prepend, StartsAt;
    var g := s[..|s| - |Leftover(f, s)|];
    QuietIsNoise(f, s, g);
    NoiseResumes(f, g, Leftover(f, s), t);
  }

  lemma NoiseResumes(f: Framing, g: bytes, b: bytes, t: bytes)
    requires Noise(f, g)
    ensures Scan(f, g + b + t) == Prepend([], Scan(f, b + t))
  {
    hide Scan, Noise;
    NoiseSkipped(f, g, b + t);
    PrependLaws([], [], Scan(f, b + t));
    assert g + b + t == g + (b + t);
  }

  lemma QuietIsNoise(f: Framing, s: bytes, g: bytes)
    requires FirstStart(f, s, 0) == |s|
    requires g == s[..|s| - |Leftover(f, s)|]
    ensures s == g + Leftover(f, s) && Noise(f, g)
  {
    forall i: nat
      ensures !StartsAt(f, s, i) && !StartsAt(f, g, i)
    {
      assert i < |s| ==> !StartsAt(f, s, i);
    }
    if Leftover(f, g) != [] {
      assert StartsAt(f, s, |g| - 1);
    }
  }
}
