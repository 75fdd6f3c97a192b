/** What reassembly promises for every byte stream and every way of cutting it into notifications. */
module Reassembly {
  import opened Bytes
  import opened Crc
  import opened Encryption
  import opened Framing
  import Packet

  // ----- Chunking invariance -----

  function Flatten(chunks: seq<bytes>): bytes {
    if chunks == [] then [] else chunks[0] + Flatten(chunks[1..])
  }

  /** The bytes that the first n events carry. */
  function Received<E>(data: E -> bytes, events: seq<E>, n: nat): bytes
    requires n <= |events|
  {
    if n == 0 then [] else Received(data, events, n - 1) + data(events[n - 1])
  }

  /** Notifications fed one by one, each continuing from the bytes the previous one left. */
  function FeedAll(f: Framing, buffer: bytes, chunks: seq<bytes>): Outcome
    decreases |chunks|
  {
    if chunks == [] then Done([], buffer)
    else
      match Scan(f, buffer + chunks[0])
      case Done(payloads, kept) => Prepend(payloads, FeedAll(f, kept, chunks[1..]))
      case Failed(error) => Failed(error)
  }

  /** A buffer that scanning leaves alone, as every buffer left by scanning is. */
  predicate Settled(f: Framing, buffer: bytes) {
    Scan(f, buffer) == Done([], buffer)
  }

  lemma {:induction false} KeptIsSettled(f: Framing, s: bytes)
    ensures Scan(f, s).Done? ==> Settled(f, Scan(f, s).buffer)
    decreases |s|, 1
  {
    hide ScanFrame, Judge;
    var k := FirstStart(f, s, 0);
    if k == |s| {
      LeftoverSettled(f, s);
    } else {
      FrameKeptIsSettled(f, s[k..]);
    }
  }

  lemma LeftoverSettled(f: Framing, s: bytes)
    ensures Settled(f, Leftover(f, s))
  {
    hide ScanFrame;
    var b := Leftover(f, s);
    assert FirstStart(f, b, 0) == |b|;
  }

  lemma {:induction false} FrameKeptIsSettled(f: Framing, d: bytes)
    requires StartsAt(f, d, 0)
    ensures ScanFrame(f, d).Done? ==> Settled(f, ScanFrame(f, d).buffer)
    decreases |d|, 0
  {
    hide Scan, FirstStart, StartsAt;
    match Judge(f, d)
    case Wait => ScanAtStart(f, d);
    case Skip(n) => KeptIsSettled(f, d[n..]);
    case Emit(_, n) => KeptIsSettled(f, d[n..]);
    case Fail(_) =>
  }

  /** However a stream is cut, the payloads, the bytes kept and any error are those of one big read. */
  lemma {:induction false} ChunkingInvariance(f: Framing, buffer: bytes, chunks: seq<bytes>)
    requires Settled(f, buffer)
    ensures FeedAll(f, buffer, chunks) == Scan(f, buffer + Flatten(chunks))
    decreases |chunks|
  {
    hide Scan;
    if chunks == [] {
      assert buffer + [] == buffer;
    } else {
      var c, rest := chunks[0], Flatten(chunks[1..]);
      assert buffer + (c + rest) == (buffer + c) + rest;
      Resume(f, buffer + c, rest);
      KeptIsSettled(f, buffer + c);
      if Scan(f, buffer + c).Done? {
        ChunkingInvariance(f, Scan(f, buffer + c).buffer, chunks[1..]);
      }
    }
  }

  lemma EmptySettled(f: Framing)
    ensures Settled(f, [])
  {}

  // ----- Failure -----

  /** The framings the daemon sets up: outer frames in the clear or of type 7, packets, bodies of type 1. */
  predicate InUse(f: Framing) {
    match f
    case Outer(None) => true
    case Outer(Some(e)) => e.Type7?
    case Passthrough => true
    case RawHeader(e) => e.Type1?
  }

  lemma JudgeNeverFails(f: Framing, d: bytes)
    requires InUse(f) && StartsAt(f, d, 0)
    ensures !Judge(f, d).Fail?
  {
    hide Crc8, Crc16, GetWord, Packet.PacketBodyLen;
  }

  /** With a valid key, no byte stream makes a framing in use report an error. */
  lemma {:induction false} NeverFails(f: Framing, s: bytes)
    requires InUse(f)
    ensures Scan(f, s).Done?
    decreases |s|
  {
    hide Judge, InUse;
    var k := FirstStart(f, s, 0);
    if k < |s| {
      var d := s[k..];
      JudgeNeverFails(f, d);
      match Judge(f, d)
      case Wait =>
      case Skip(n) => NeverFails(f, d[n..]);
      case Emit(_, n) => NeverFails(f, d[n..]);
    }
  }

  // ----- Soundness, completeness and bounds -----

  /** w is one whole frame on the wire carrying payload. */
  ghost predicate IsFrame(f: Framing, w: bytes, payload: bytes) {
    match f
    case Outer(encryption) =>
      && |w| >= 8 && w[..2] == [MARK, MARK]
      && GetLength(w[4..6]) == |w| - 6 && MIN_LENGTH <= |w| - 6 <= MAX_LENGTH
      && GetWord(w[|w| - 2..]) == Crc16(w[..|w| - 2])
      && Reveals(encryption, w[6..|w| - 2], payload)
    case Passthrough =>
      && |w| >= 5 && w[0] == Packet.PREFIX && w[4] == Crc8(w[..4])
      && |w| == 5 + InnerLen(w)
      && payload == w
    case RawHeader(e) =>
      && |w| >= 5 && w[0] == Packet.PREFIX && w[4] == Crc8(w[..4])
      && |w| == 5 + RoundUp(InnerLen(w))
      && |payload| == 5 + InnerLen(w) && payload[..5] == w[..5]
      && exists body :: Decrypt(e, w[5..]) == Ok(body) && payload[5..] <= body
  }

  predicate Reveals(encryption: Option<Strategy>, body: bytes, payload: bytes) {
    match encryption
    case None => payload == body
    case Some(e) => Decrypt(e, body) == Ok(payload)
  }

  function MaxBuffer(f: Framing): nat {
    match f
    case Outer(_) => 10005
    case Passthrough => 65554
    case RawHeader(_) => 65556
  }

  lemma JudgeSound(f: Framing, d: bytes)
    requires StartsAt(f, d, 0)
    ensures var v := Judge(f, d); v.Emit? ==> IsFrame(f, d[..v.n], v.payload)
    ensures Judge(f, d).Wait? ==> |d| <= MaxBuffer(f)
  {
    hide Judge, IsFrame, StartsAt, MaxBuffer;
    match f
    case Outer(encryption) => OuterSound(encryption, d);
    case _ => InnerSound(f, d);
  }

  lemma OuterSound(encryption: Option<Strategy>, d: bytes)
    requires StartsAt(Outer(encryption), d, 0)
    ensures var v := Judge(Outer(encryption), d);
            && (v.Emit? ==> IsFrame(Outer(encryption), d[..v.n], v.payload))
            && (v.Wait? ==> |d| <= MaxBuffer(Outer(encryption)))
  {
    hide Crc16, GetWord, GetLength, Decrypt;
    var v := Judge(Outer(encryption), d);
    if v.Emit? {
      var w := d[..v.n];
      assert v.n == 6 + GetLength(d[4..6]) && w[4..6] == d[4..6];
      assert w[..v.n - 2] == d[..v.n - 2] && w[v.n - 2..] == d[v.n - 2..v.n] && w[6..v.n - 2] == d[6..v.n - 2];
    }
  }

  lemma InnerSound(f: Framing, d: bytes)
    requires !f.Outer? && StartsAt(f, d, 0)
    ensures var v := Judge(f, d);
            (v.Emit? ==> IsFrame(f, d[..v.n], v.payload)) && (v.Wait? ==> |d| <= MaxBuffer(f))
  {
    hide Crc8, Decrypt;
    var v := Judge(f, d);
    if v.Emit? {
      var w := d[..v.n];
      assert w[..4] == d[..4] && w[2..4] == d[2..4] && w[..5] == d[..5] && w[5..] == d[5..v.n];
    }
  }

  lemma JudgeComplete(f: Framing, d: bytes, n: nat, payload: bytes)
    requires n <= |d| && IsFrame(f, d[..n], payload)
    ensures StartsAt(f, d, 0) && Judge(f, d) == Emit(payload, n)
  {
    hide Crc8, Crc16, GetWord, Decrypt, Packet.PacketBodyLen;
    var w := d[..n];
    if f.Outer? {
      assert w[4..6] == d[4..6] && w[..n - 2] == d[..n - 2] && w[n - 2..] == d[n - 2..n];
      assert w[6..n - 2] == d[6..n - 2] && d[0] == w[..2][0] && d[1] == w[..2][1];
    } else {
      assert w[..4] == d[..4] && w[2..4] == d[2..4] && w[..5] == d[..5] && w[5..] == d[5..n];
      if f.RawHeader? {
        assert payload == payload[..5] + payload[5..];
      }
    }
  }

  datatype Segment = Segment(lo: nat, hi: nat)

  predicate Covered(segs: seq<Segment>, g: nat) {
    exists k :: 0 <= k < |segs| && segs[k].lo <= g < segs[k].hi
  }

  /** The payloads are the contents of disjoint, increasing frames of the stream; the buffer is its tail. */
  ghost predicate Explains(f: Framing, s: bytes, from: nat, segs: seq<Segment>, payloads: seq<bytes>, buffer: bytes) {
    && |segs| == |payloads|
    && from + |buffer| <= |s| && s[|s| - |buffer|..] == buffer
    && (forall k :: 0 <= k < |segs| ==>
          && from <= segs[k].lo < segs[k].hi <= |s| - |buffer|
          && IsFrame(f, s[segs[k].lo..segs[k].hi], payloads[k]))
    && (forall j, k :: 0 <= j < k < |segs| ==> segs[j].hi <= segs[k].lo)
  }

  /** An outer frame is only looked for where its mark cannot be the tail of another mark. */
  predicate CleanStart(f: Framing, s: bytes, from: nat, g: nat) {
    f.Outer? && from < g <= |s| ==> s[g - 1] != MARK
  }

  /** No whole frame that starts cleanly before the kept bytes is missed. */
  ghost predicate Complete(f: Framing, s: bytes, from: nat, segs: seq<Segment>, buffer: bytes) {
    forall g: nat, h: nat, payload ::
      from <= g <= h <= |s| && g + |buffer| < |s| && CleanStart(f, s, from, g) && IsFrame(f, s[g..h], payload)
      ==> Covered(segs, g)
  }

  /** Reading s from position p is fully accounted for by these segments. */
  ghost predicate Explained(f: Framing, s: bytes, p: nat, segs: seq<Segment>, o: Outcome) {
    o.Done? && Explains(f, s, p, segs, o.payloads, o.buffer) && Complete(f, s, p, segs, o.buffer)
  }

  /** No frame starts from p up to i. */
  ghost predicate FrameFree(f: Framing, s: bytes, p: nat, i: nat) {
    forall g: nat, h: nat, payload :: p <= g <= h <= |s| && g < i ==> !IsFrame(f, s[g..h], payload)
  }

  // Between the place where scanning stands and the first possible start there is no frame.
  lemma NoFrameBeforeStart(f: Framing, s: bytes, p: nat)
    requires p <= |s|
    ensures FrameFree(f, s, p, p + FirstStart(f, s[p..], 0))
  {
    hide IsFrame, Judge;
    var i := p + FirstStart(f, s[p..], 0);
    forall g: nat, h: nat, payload | p <= g <= h <= |s| && g < i
      ensures !IsFrame(f, s[g..h], payload)
    {
      assert !StartsAt(f, s[p..], g - p);
      assert !StartsAt(f, s[g..], 0);
      if IsFrame(f, s[g..h], payload) {
        FrameIsJudged(f, s, g, h, payload);
      }
    }
  }

  lemma FrameIsJudged(f: Framing, s: bytes, g: nat, h: nat, payload: bytes)
    requires g <= h <= |s| && IsFrame(f, s[g..h], payload)
    ensures StartsAt(f, s[g..], 0) && Judge(f, s[g..]) == Emit(payload, h - g)
  {
    hide IsFrame, Judge;
    assert s[g..][..h - g] == s[g..h];
    JudgeComplete(f, s[g..], h - g, payload);
  }

  // A start that is skipped begins no frame, and the byte after it is not a clean start.
  lemma NoFrameAtSkip(f: Framing, s: bytes, i: nat, n: nat, g: nat, h: nat, payload: bytes)
    requires i <= g <= h <= |s| && StartsAt(f, s[i..], 0) && Judge(f, s[i..]) == Skip(n) && g < i + n
    requires CleanStart(f, s, i, g)
    ensures !IsFrame(f, s[g..h], payload)
  {
    hide IsFrame, Crc8, Crc16, GetWord, Decrypt;
    if g == i && IsFrame(f, s[g..h], payload) {
      FrameIsJudged(f, s, g, h, payload);
    }
  }

  lemma QuietExplained(f: Framing, s: bytes, p: nat, i: nat, buffer: bytes)
    requires p + |buffer| <= |s| <= i + |buffer| && s[|s| - |buffer|..] == buffer
    requires FrameFree(f, s, p, i)
    ensures Explained(f, s, p, [], Done([], buffer))
  {
    hide IsFrame;
  }

  lemma SkipExplained(f: Framing, s: bytes, p: nat, i: nat, n: nat, segs: seq<Segment>, o: Outcome)
    requires p <= i < i + n <= |s| && StartsAt(f, s[i..], 0) && Judge(f, s[i..]) == Skip(n)
    requires FrameFree(f, s, p, i)
    requires Explained(f, s, i + n, segs, o)
    ensures Explained(f, s, p, segs, o)
  {
    hide IsFrame, Judge, StartsAt, Covered;
    forall g: nat, h: nat, payload
      | p <= g <= h <= |s| && g + |o.buffer| < |s| && CleanStart(f, s, p, g) && IsFrame(f, s[g..h], payload)
      ensures Covered(segs, g)
    {
      if i <= g < i + n {
        NoFrameAtSkip(f, s, i, n, g, h, payload);
      }
    }
  }

  lemma EmitExplained(f: Framing, s: bytes, p: nat, i: nat, n: nat, payload: bytes, segs: seq<Segment>, o: Outcome)
    requires p <= i < i + n <= |s| && IsFrame(f, s[i..i + n], payload)
    requires FrameFree(f, s, p, i)
    requires Explained(f, s, i + n, segs, o)
    ensures Explained(f, s, p, [Segment(i, i + n)] + segs, Prepend([payload], o))
  {
    hide Explains, Complete;
    EmitSound(f, s, p, i, n, payload, segs, o.payloads, o.buffer);
    EmitComplete(f, s, p, i, n, segs, o.buffer);
  }

  lemma EmitSound(f: Framing, s: bytes, p: nat, i: nat, n: nat, payload: bytes,
                  segs: seq<Segment>, payloads: seq<bytes>, buffer: bytes)
    requires p <= i < i + n <= |s| && IsFrame(f, s[i..i + n], payload)
    requires Explains(f, s, i + n, segs, payloads, buffer)
    ensures Explains(f, s, p, [Segment(i, i + n)] + segs, [payload] + payloads, buffer)
  {
    hide IsFrame;
    var all, contents := [Segment(i, i + n)] + segs, [payload] + payloads;
    forall k | 0 <= k < |all|
      ensures p <= all[k].lo < all[k].hi <= |s| - |buffer| && IsFrame(f, s[all[k].lo..all[k].hi], contents[k])
    {
      if k > 0 {
        assert all[k] == segs[k - 1] && contents[k] == payloads[k - 1];
      }
    }
    forall j, k | 0 <= j < k < |all|
      ensures all[j].hi <= all[k].lo
    {
      assert all[k] == segs[k - 1];
    }
  }

  lemma EmitComplete(f: Framing, s: bytes, p: nat, i: nat, n: nat, segs: seq<Segment>, buffer: bytes)
    requires p <= i < i + n <= |s|
    requires FrameFree(f, s, p, i)
    requires Complete(f, s, i + n, segs, buffer)
    ensures Complete(f, s, p, [Segment(i, i + n)] + segs, buffer)
  {
    hide IsFrame;
    var all := [Segment(i, i + n)] + segs;
    forall g: nat, h: nat, payload
      | p <= g <= h <= |s| && g + |buffer| < |s| && CleanStart(f, s, p, g) && IsFrame(f, s[g..h], payload)
      ensures Covered(all, g)
    {
      if g < i + n {
        assert all[0].lo <= g < all[0].hi;
      } else {
        assert Covered(segs, g);
        var k :| 0 <= k < |segs| && segs[k].lo <= g < segs[k].hi;
        assert all[k + 1] == segs[k];
      }
    }
  }

  // One step of scanning from position p, in positions of the whole stream.
  lemma ScanFrom(f: Framing, s: bytes, p: nat, i: nat)
    requires p <= |s| && i == p + FirstStart(f, s[p..], 0)
    ensures i == |s| ==> Scan(f, s[p..]) == Done([], Leftover(f, s[p..]))
    ensures i < |s| ==>
              && StartsAt(f, s[i..], 0)
              && Scan(f, s[p..]) == match Judge(f, s[i..])
                                    case Wait => Done([], s[i..])
                                    case Skip(n) => Scan(f, s[i + n..])
                                    case Emit(payload, n) => Prepend([payload], Scan(f, s[i + n..]))
                                    case Fail(error) => Failed(error)
  {
    hide Judge, Scan, ScanFrame, StartsAt, FirstStart, Leftover, Prepend;
    var d := s[i..];
    assert s[p..][i - p..] == d;
    ScanTurn(f, s[p..]);
    if i < |s| {
      FrameTurn(f, d);
      match Judge(f, d)
      case Skip(n) => DropDrop(s, i, n);
      case Emit(_, n) => DropDrop(s, i, n);
      case _ =>
    }
  }

  lemma DropDrop(s: bytes, i: nat, n: nat)
    requires i + n <= |s|
    ensures s[i..][n..] == s[i + n..] && s[i..][..n] == s[i..i + n]
  {}

  /** Where the frames lie that scanning s from position p emits. */
  function Emitted(f: Framing, s: bytes, p: nat): seq<Segment>
    requires p <= |s|
    decreases |s| - p
  {
    var i := p + FirstStart(f, s[p..], 0);
    if i == |s| then []
    else
      match Judge(f, s[i..])
      case Skip(n) => Emitted(f, s, i + n)
      case Emit(_, n) => [Segment(i, i + n)] + Emitted(f, s, i + n)
      case _ => []
  }

  // One turn of Emitted, with the function unfolded once.
  lemma EmittedTurn(f: Framing, s: bytes, p: nat, i: nat)
    requires p <= |s| && i == p + FirstStart(f, s[p..], 0)
    ensures i == |s| ==> Emitted(f, s, p) == []
    ensures i < |s| ==>
              && StartsAt(f, s[i..], 0)
              && var v, segs := Judge(f, s[i..]), Emitted(f, s, p);
                 && (v.Skip? ==> segs == Emitted(f, s, i + v.n))
                 && (v.Emit? ==> segs == [Segment(i, i + v.n)] + Emitted(f, s, i + v.n))
                 && (v.Wait? || v.Fail? ==> segs == [])
  {
    hide FirstStart, Judge, StartsAt;
  }

  lemma {:induction false} Explain(f: Framing, s: bytes, p: nat)
    requires p <= |s| && Scan(f, s[p..]).Done?
    ensures Explained(f, s, p, Emitted(f, s, p), Scan(f, s[p..]))
    decreases |s| - p
  {
    hide IsFrame, Scan, FirstStart, Judge, StartsAt, Explained, Explains, Complete, FrameFree, Emitted, Prepend;
    var i := p + FirstStart(f, s[p..], 0);
    ScanFrom(f, s, p, i);
    EmittedTurn(f, s, p, i);
    NoFrameBeforeStart(f, s, p);
    if i == |s| {
      QuietExplained(f, s, p, i, Leftover(f, s[p..]));
    } else {
      JudgeSound(f, s[i..]);
      match Judge(f, s[i..])
      case Wait =>
        QuietExplained(f, s, p, i, s[i..]);
      case Skip(n) =>
        Explain(f, s, i + n);
        SkipExplained(f, s, p, i, n, Emitted(f, s, i + n), Scan(f, s[i + n..]));
      case Emit(payload, n) =>
        DropDrop(s, i, n);
        PrependDone([payload], Scan(f, s[i + n..]));
        Explain(f, s, i + n);
        EmitExplained(f, s, p, i, n, payload, Emitted(f, s, i + n), Scan(f, s[i + n..]));
    }
  }

  lemma PrependDone(payloads: seq<bytes>, o: Outcome)
    ensures Prepend(payloads, o).Done? <==> o.Done?
    ensures o.Done? ==> Prepend(payloads, o).buffer == o.buffer
  {}

  lemma {:induction false} BufferBounded(f: Framing, s: bytes)
    requires Scan(f, s).Done?
    ensures |Scan(f, s).buffer| <= MaxBuffer(f)
    decreases |s|
  {
    hide IsFrame, Judge, StartsAt;
    var k := FirstStart(f, s, 0);
    if k < |s| {
      var d := s[k..];
      JudgeSound(f, d);
      match Judge(f, d)
      case Wait =>
      case Skip(n) => BufferBounded(f, d[n..]);
      case Emit(_, n) => BufferBounded(f, d[n..]);
    }
  }

  /** The bound on the kept bytes is attained, so it is exact. */
  lemma BoundAttained(f: Framing) returns (s: bytes)
    ensures Scan(f, s) == Done([], s) && |s| == MaxBuffer(f)
  {
    hide Crc8;
    if f.Outer? {
      s := [MARK, MARK, 0x10, 1] + PutLength(MAX_LENGTH) + Repeat(0, MAX_LENGTH - 1);
      assert s[4..6] == PutLength(MAX_LENGTH);
    } else {
      var header := Packet.Header(3, Packet.MAX_PAYLOAD);
      s := header + Repeat(0, MaxBuffer(f) - 5);
      assert s[..4] == Packet.Preamble(3, Packet.MAX_PAYLOAD) && s[2..4] == PutLength(Packet.MAX_PAYLOAD);
    }
    FirstStartHere(f, s);
    assert s[0..] == s;
  }

  /** Soundness, completeness and boundedness, for every stream and every way of cutting it. */
  lemma SoundAndComplete(f: Framing, chunks: seq<bytes>)
    requires FeedAll(f, [], chunks).Done?
    ensures var stream, o := Flatten(chunks), FeedAll(f, [], chunks);
            && |o.buffer| <= MaxBuffer(f)
            && Explained(f, stream, 0, Emitted(f, stream, 0), o)
  {
    EmptySettled(f);
    hide Scan, FeedAll, Emitted, Explained;
    var stream := Flatten(chunks);
    ChunkingInvariance(f, [], chunks);
    assert [] + stream == stream && stream[0..] == stream;
    Explain(f, stream, 0);
    BufferBounded(f, stream);
  }
}
