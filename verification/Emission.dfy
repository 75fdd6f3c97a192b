/** Which frames of a stream are emitted: what the bytes before a frame do to it. */
module Emission {
  import opened Bytes
  import opened Crc
  import opened Encryption
  import opened Framing
  import opened Reassembly

  // Scanning depends on where it starts only through the first possible start.
  lemma SameStart(f: Framing, s: bytes, p: nat, q: nat)
    requires p <= |s| && q <= |s|
    requires p + FirstStart(f, s[p..], 0) == q + FirstStart(f, s[q..], 0)
    ensures Emitted(f, s, p) == Emitted(f, s, q)
  {
    hide FirstStart, Judge, StartsAt, Emitted;
    EmittedTurn(f, s, p, p + FirstStart(f, s[p..], 0));
    EmittedTurn(f, s, q, p + FirstStart(f, s[p..], 0));
  }

  /** What is emitted from a longer stream: what was emitted before, then what the kept bytes lead to. */
  lemma {:induction false} EmittedResumes(f: Framing, s: bytes, t: bytes, p: nat)
    requires p <= |s| && Scan(f, s[p..]).Done?
    ensures |Scan(f, s[p..]).buffer| <= |s| - p
    ensures Emitted(f, s + t, p) ==
            Emitted(f, s, p) + Emitted(f, s + t, |s| - |Scan(f, s[p..]).buffer|)
    decreases |s| - p
  {
    hide Scan, FirstStart, Judge, StartsAt, Leftover, Emitted, Prepend;
    var i, u := p + FirstStart(f, s[p..], 0), s + t;
    ScanFrom(f, s, p, i);
    EmittedTurn(f, s, p, i);
    DropConcat(s, p, t);
    if i == |s| {
      QuietEmits(f, s, t, p);
    } else {
      FirstStartKept(f, s[p..], t);
      EmittedTurn(f, u, p, i);
      DropConcat(s, i, t);
      JudgeStable(f, s[i..], t);
      match Judge(f, s[i..])
      case Wait =>
        FirstStartHere(f, u[i..]);
        SameStart(f, u, p, i);
      case Skip(n) =>
        EmittedResumes(f, s, t, i + n);
      case Emit(payload, n) =>
        PrependDone([payload], Scan(f, s[i + n..]));
        EmittedResumes(f, s, t, i + n);
        PrependSegment(Segment(i, i + n), Emitted(f, s, i + n), Emitted(f, u, |s| - |Scan(f, s[p..]).buffer|));
    }
  }

  lemma PrependSegment(x: Segment, a: seq<Segment>, b: seq<Segment>)
    ensures [x] + (a + b) == ([x] + a) + b
  {}

  // Between two frames only what is kept matters for where the next one is found.
  lemma QuietEmits(f: Framing, s: bytes, t: bytes, p: nat)
    requires p <= |s| && FirstStart(f, s[p..], 0) == |s| - p
    ensures |Leftover(f, s[p..])| <= |s| - p
    ensures Emitted(f, s + t, p) == Emitted(f, s + t, |s| - |Leftover(f, s[p..])|)
  {
    hide FirstStart, StartsAt, Noise, Leftover, Emitted;
    var d := s[p..];
    var b := Leftover(f, d);
    LeftoverFits(f, d);
    var g := d[..|d| - |b|];
    QuietIsNoise(f, d, g);
    StartAfterNoise(f, g, b + t);
    DropQuiet(s, t, p, |s| - |b|);
    SameStart(f, s + t, p, |s| - |b|);
  }

  lemma DropQuiet(s: bytes, t: bytes, p: nat, q: nat)
    requires p <= q <= |s|
    ensures (s + t)[p..] == s[p..][..q - p] + (s[p..][q - p..] + t)
    ensures (s + t)[q..] == s[p..][q - p..] + t
  {}

  predicate EmitsAt(segs: seq<Segment>, g: nat) {
    exists k :: 0 <= k < |segs| && segs[k].lo == g
  }

  lemma {:induction false} EmittedFrom(f: Framing, s: bytes, p: nat)
    requires p <= |s|
    ensures forall k :: 0 <= k < |Emitted(f, s, p)| ==> p <= Emitted(f, s, p)[k].lo
    decreases |s| - p
  {
    hide FirstStart, Judge, StartsAt, Emitted;
    var i := p + FirstStart(f, s[p..], 0);
    EmittedTurn(f, s, p, i);
    if i < |s| {
      match Judge(f, s[i..])
      case Skip(n) => EmittedFrom(f, s, i + n);
      case Emit(_, n) => EmittedFrom(f, s, i + n);
      case _ =>
    }
  }

  // Only what the kept bytes lead to can be emitted at or after the end of what was read.
  lemma EmitsAfter(f: Framing, s: bytes, t: bytes)
    requires Scan(f, s).Done?
    ensures |Scan(f, s).buffer| <= |s|
    ensures EmitsAt(Emitted(f, s + t, 0), |s|) <==>
            EmitsAt(Emitted(f, s + t, |s| - |Scan(f, s).buffer|), |s|)
  {
    hide Scan, Emitted, EmitsAt;
    assert s[0..] == s;
    KeptBytes(f, s);
    EmittedResumes(f, s, t, 0);
    EmittedWithin(f, s);
    EmitsInSecond(Emitted(f, s, 0), Emitted(f, s + t, |s| - |Scan(f, s).buffer|), |s|);
  }

  lemma EmittedWithin(f: Framing, s: bytes)
    requires Scan(f, s).Done?
    ensures forall k :: 0 <= k < |Emitted(f, s, 0)| ==> Emitted(f, s, 0)[k].lo < |s|
  {
    hide Scan, Emitted, Complete, IsFrame;
    assert s[0..] == s;
    Explain(f, s, 0);
  }

  lemma EmitsInSecond(a: seq<Segment>, b: seq<Segment>, g: nat)
    requires forall k :: 0 <= k < |a| ==> a[k].lo < g
    ensures EmitsAt(a + b, g) <==> EmitsAt(b, g)
  {
    if EmitsAt(b, g) {
      var k :| 0 <= k < |b| && b[k].lo == g;
      assert (a + b)[|a| + k] == b[k];
    }
  }

  // What is kept is the end of what was read.
  lemma KeptBytes(f: Framing, s: bytes)
    requires Scan(f, s).Done?
    ensures var b := Scan(f, s).buffer; |b| <= |s| && s[|s| - |b|..] == b
  {
    hide Scan, Emitted, Complete, IsFrame;
    assert s[0..] == s;
    Explain(f, s, 0);
  }

  /** Kept bytes longer than a half mark are a frame begun: they start one, and wait. */
  lemma KeptBegins(f: Framing, b: bytes)
    requires Settled(f, b) && |b| > |Leftover(f, b)|
    ensures StartsAt(f, b, 0) && Judge(f, b) == Wait
  {
    hide Scan, ScanFrame, FirstStart, Judge, StartsAt, Leftover;
    var k := FirstStart(f, b, 0);
    ScanTurn(f, b);
    assert k < |b|;
    var d := b[k..];
    FrameTurn(f, d);
    if Judge(f, d).Skip? {
      KeptBytes(f, d[Judge(f, d).n..]);
    } else {
      assert k == 0 && b[0..] == b;
    }
  }

  lemma OuterSizes(encryption: Option<Strategy>, d: bytes)
    requires StartsAt(Outer(encryption), d, 0)
    ensures var v := Judge(Outer(encryption), d); (v.Skip? ==> v.n == 2) && (v.Emit? ==> v.n >= 8)
  {
    hide Crc16, GetWord, Decrypt;
  }

  // ----- When a frame is emitted where it starts -----

  /**
   * The kept bytes b let a frame u behind them through: they are nothing, or the frame they seem to begin
   * is rejected within them, and what reading on from there keeps lets u through in turn.
   */
  predicate Clears(f: Framing, b: bytes, u: bytes)
    decreases |b|
  {
    || b == []
    || (StartsAt(f, b + u, 0)
        && match Judge(f, b + u)
           case Skip(n) => n <= |b| && ClearsFrom(f, b, n, u)
           case _ => false)
  }

  predicate ClearsFrom(f: Framing, b: bytes, n: nat, u: bytes)
    requires 1 <= n <= |b|
    decreases |b|, 0
  {
    match Scan(f, b[n..])
    case Done(_, kept) => |kept| < |b| && Clears(f, kept, u)
    case Failed(_) => false
  }

  lemma EmitsFirst(x: Segment, segs: seq<Segment>, g: nat)
    ensures EmitsAt([x] + segs, g) <==> x.lo == g || EmitsAt(segs, g)
  {
    if x.lo == g {
      assert ([x] + segs)[0].lo == g;
    }
    if EmitsAt(segs, g) {
      var k :| 0 <= k < |segs| && segs[k].lo == g;
      assert ([x] + segs)[k + 1] == segs[k];
    }
  }

  /** What is emitted does not depend on the bytes before the place where scanning starts. */
  lemma {:induction false} EmitsShifted(f: Framing, s: bytes, p: nat, q: nat, g: nat)
    requires p + q <= |s|
    ensures EmitsAt(Emitted(f, s, p + q), p + g) <==> EmitsAt(Emitted(f, s[p..], q), g)
    decreases |s| - q
  {
    hide FirstStart, Judge, StartsAt, Emitted, EmitsAt;
    var d := s[p..];
    DropTwice(s, p, q);
    var i := q + FirstStart(f, d[q..], 0);
    EmittedTurn(f, s, p + q, p + i);
    EmittedTurn(f, d, q, i);
    NothingAt(p + g);
    NothingAt(g);
    if i < |d| {
      DropTwice(s, p, i);
      match Judge(f, d[i..])
      case Skip(n) =>
        EmitsShifted(f, s, p, i + n, g);
      case Emit(_, n) =>
        EmitsShifted(f, s, p, i + n, g);
        EmitsFirst(Segment(p + i, p + i + n), Emitted(f, s, p + i + n), p + g);
        EmitsFirst(Segment(i, i + n), Emitted(f, d, i + n), g);
      case _ =>
    }
  }

  lemma NothingAt(g: nat)
    ensures !EmitsAt([], g)
  {}

  lemma DropTwice(s: bytes, p: nat, q: nat)
    requires p + q <= |s|
    ensures s[p..][q..] == s[p + q..]
  {}

  // Kept bytes are half a mark or a frame begun: either way more bytes make them a possible start, and
  // no frame from there ends within them.
  lemma KeptStarts(f: Framing, b: bytes, u: bytes)
    requires Settled(f, b) && b != [] && StartsAt(f, u, 0)
    ensures StartsAt(f, b + u, 0)
    ensures Judge(f, b + u).Emit? ==> Judge(f, b + u).n > |b|
  {
    hide Scan, Judge, StartsAt;
    if f.Outer? && b == [MARK] {
      HalfMark(f.encryption, u);
      OuterSizes(f.encryption, b + u);
    } else {
      KeptIsHalfMark(f, b);
      KeptBegins(f, b);
      JudgeStable(f, b, u);
      NotInside(f, b, u);
    }
  }

  /**
   * For every framing and every stream s: a frame u behind s is emitted where it starts if and only if the
   * bytes that s leaves buffered let it through.
   */
  lemma {:induction false} EmittedIff(f: Framing, s: bytes, u: bytes)
    requires InUse(f) && StartsAt(f, u, 0) && Judge(f, u).Emit?
    ensures Scan(f, s).Done?
    ensures EmitsAt(Emitted(f, s + u, 0), |s|) <==> Clears(f, Scan(f, s).buffer, u)
    decreases |s|, 1
  {
    hide Scan, Emitted, EmitsAt, Judge, StartsAt, Clears, InUse;
    NeverFails(f, s);
    var b := Scan(f, s).buffer;
    EmitsAfter(f, s, u);
    KeptBytes(f, s);
    KeptIsSettled(f, s);
    var q := |s| - |b|;
    assert (s + u)[q..] == b + u;
    EmitsShifted(f, s + u, q, 0, |b|);
    KeptIff(f, b, u);
  }

  lemma {:induction false} KeptIff(f: Framing, b: bytes, u: bytes)
    requires InUse(f) && StartsAt(f, u, 0) && Judge(f, u).Emit? && Settled(f, b)
    ensures EmitsAt(Emitted(f, b + u, 0), |b|) <==> Clears(f, b, u)
    decreases |b|, 0
  {
    hide Scan, Emitted, EmitsAt, Judge, StartsAt, InUse, ClearsFrom;
    var d := b + u;
    assert d[0..] == d;
    if b == [] {
      assert d == u;
      EmitsHere(f, d, 0);
    } else {
      KeptStarts(f, b, u);
      FromStart(f, d, |b|);
      if Judge(f, d).Skip? && Judge(f, d).n <= |b| {
        RejectedIff(f, b, Judge(f, d).n, u);
      }
    }
  }

  lemma {:induction false} RejectedIff(f: Framing, b: bytes, n: nat, u: bytes)
    requires InUse(f) && StartsAt(f, u, 0) && Judge(f, u).Emit? && 1 <= n <= |b|
    ensures EmitsAt(Emitted(f, b + u, n), |b|) <==> ClearsFrom(f, b, n, u)
    decreases |b| - n, 2
  {
    hide Scan, Emitted, EmitsAt, Judge, StartsAt, InUse, Clears;
    EmitsShifted(f, b + u, n, 0, |b| - n);
    DropConcat(b, n, u);
    EmittedIff(f, b[n..], u);
    KeptBytes(f, b[n..]);
  }

  // From a possible start at the front, a position behind it is reached only through a rejection.
  lemma FromStart(f: Framing, d: bytes, g: nat)
    requires StartsAt(f, d, 0) && g > 0
    ensures var v, segs := Judge(f, d), Emitted(f, d, 0);
            && (v.Skip? ==> (EmitsAt(segs, g) <==> g >= v.n && EmitsAt(Emitted(f, d, v.n), g)))
            && (v.Emit? && EmitsAt(segs, g) ==> g >= v.n)
            && (v.Wait? || v.Fail? ==> !EmitsAt(segs, g))
  {
    hide FirstStart, Judge, StartsAt, Emitted, EmitsAt;
    assert d[0..] == d;
    FirstStartHere(f, d);
    EmittedTurn(f, d, 0, 0);
    NothingAt(g);
    match Judge(f, d)
    case Skip(n) =>
      EmitsOnlyFrom(f, d, n, g);
    case Emit(_, n) =>
      EmitsOnlyFrom(f, d, n, g);
      EmitsFirst(Segment(0, n), Emitted(f, d, n), g);
    case _ =>
  }

  lemma EmitsOnlyFrom(f: Framing, s: bytes, p: nat, g: nat)
    requires p <= |s|
    ensures EmitsAt(Emitted(f, s, p), g) ==> g >= p
  {
    hide Emitted;
    EmittedFrom(f, s, p);
  }

  lemma HalfMark(encryption: Option<Strategy>, u: bytes)
    requires StartsAt(Outer(encryption), u, 0)
    ensures StartsAt(Outer(encryption), [MARK] + u, 0)
  {}

  lemma KeptIsHalfMark(f: Framing, b: bytes)
    requires Settled(f, b) && b != [] && !(f.Outer? && b == [MARK])
    ensures |b| > |Leftover(f, b)|
  {
    hide ScanFrame;
  }

  lemma EmitsHere(f: Framing, s: bytes, q: nat)
    requires q <= |s| && StartsAt(f, s[q..], 0) && Judge(f, s[q..]).Emit?
    ensures EmitsAt(Emitted(f, s, q), q)
  {
    hide FirstStart, Judge, StartsAt;
    FirstStartHere(f, s[q..]);
    assert Emitted(f, s, q)[0].lo == q;
  }

  // Bytes that wait cannot be the beginning of a frame that ends within them.
  lemma NotInside(f: Framing, b: bytes, u: bytes)
    requires StartsAt(f, b, 0) && Judge(f, b) == Wait && StartsAt(f, b + u, 0)
    ensures Judge(f, b + u).Emit? ==> Judge(f, b + u).n > |b|
  {
    hide Judge, StartsAt, IsFrame;
    var v := Judge(f, b + u);
    if v.Emit? && v.n <= |b| {
      JudgeSound(f, b + u);
      assert (b + u)[..v.n] == b[..v.n];
      JudgeComplete(f, b, v.n, v.payload);
    }
  }
}
