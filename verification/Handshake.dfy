/** The handshake: frames pulled one at a time, and the search for the reply to a command. */
module Handshake {
  import opened Bytes
  import opened Crc
  import opened Framing
  import opened Reassembly
  import opened StreamRoundTrip

  datatype Pulled = Pulled(payload: Option<bytes>, buffer: bytes)

  /** The first whole frame of s and everything after it, or nothing and the bytes kept. */
  function PullNext(s: bytes): (r: Pulled)
    ensures r.payload.Some? ==> |r.buffer| < |s|
    decreases |s|
  {
    var start := FirstStart(Outer(None), s, 0);
    if start == |s| then Pulled(None, Leftover(Outer(None), s))
    else
      var d := s[start..];
      match Judge(Outer(None), d)
      case Wait => Pulled(None, d)
      case Skip(n) => PullNext(d[n..])
      case Emit(payload, n) => Pulled(Some(payload), d[n..])
      case Fail(_) => Pulled(None, [])
  }

  /** One pull is the first payload of the push-style scan, and leaves the rest of the stream to be scanned. */
  lemma {:induction false} PullIsFirst(s: bytes)
    ensures Scan(Outer(None), s) ==
            match PullNext(s).payload
            case None => Done([], PullNext(s).buffer)
            case Some(payload) => Prepend([payload], Scan(Outer(None), PullNext(s).buffer))
    decreases |s|
  {
    hide Judge, StartsAt, InUse;
    var f, k := Outer(None), FirstStart(Outer(None), s, 0);
    if k < |s| {
      var d := s[k..];
      JudgeInClear(d);
      match Judge(f, d)
      case Skip(n) => PullIsFirst(d[n..]);
      case _ =>
    }
  }

  // What one turn of the pulling loop needs to know.
  lemma PullTurn(s: bytes)
    ensures var k := FirstStart(Outer(None), s, 0);
            if k == |s| then PullNext(s) == Pulled(None, Leftover(Outer(None), s))
            else PullNext(s) == match Judge(Outer(None), s[k..])
                                case Wait => Pulled(None, s[k..])
                                case Skip(n) => PullNext(s[k..][n..])
                                case Emit(payload, n) => Pulled(Some(payload), s[k..][n..])
                                case Fail(_) => Pulled(None, [])
  {
    hide Judge, FirstStart;
  }

  lemma {:induction false} PullResumes(s: bytes, t: bytes)
    ensures PullNext(s + t) ==
            match PullNext(s)
            case Pulled(Some(payload), rest) => Pulled(Some(payload), rest + t)
            case Pulled(None, kept) => PullNext(kept + t)
    decreases |s|
  {
    hide Judge, StartsAt, Leftover;
    var f, k := Outer(None), FirstStart(Outer(None), s, 0);
    if k == |s| {
      PullResumesQuiet(s, t);
    } else {
      var d := s[k..];
      FirstStartKept(f, s, t);
      assert (s + t)[k..] == d + t;
      JudgeStable(f, d, t);
      JudgeInClear(d);
      match Judge(f, d)
      case Wait =>
        FirstStartHere(f, d + t);
        assert (d + t)[0..] == d + t;
      case Skip(n) =>
        DropConcat(d, n, t);
        PullResumes(d[n..], t);
      case Emit(_, n) =>
        DropConcat(d, n, t);
    }
  }

  lemma PullResumesQuiet(s: bytes, t: bytes)
    requires FirstStart(Outer(None), s, 0) == |s|
    ensures PullNext(s + t) == PullNext(Leftover(Outer(None), s) + t)
  {
    hide Judge, Noise, Leftover, StartsAt, FirstStart, PullNext;
    var f := Outer(None);
    var kept := Leftover(f, s);
    LeftoverFits(f, s);
    var g := s[..|s| - |kept|];
    QuietIsNoise(f, s, g);
    assert s + t == g + (kept + t);
    PullPastNoise(g, kept + t);
  }

  // Noise in front changes no pull.
  lemma PullPastNoise(g: bytes, s: bytes)
    requires Noise(Outer(None), g)
    ensures PullNext(g + s) == PullNext(s)
  {
    hide Judge, Noise, Leftover, StartsAt, FirstStart, PullNext;
    NoiseShiftsStart(Outer(None), g, s);
    PullTurn(g + s);
    PullTurn(s);
  }

  lemma JudgeInClear(d: bytes)
    requires StartsAt(Outer(None), d, 0)
    ensures !Judge(Outer(None), d).Fail?
  {
    hide Crc16, GetWord;
  }

  class SimplePacketAssembler {
    var buffer: bytes

    constructor ()
      ensures buffer == []
    {
      buffer := [];
    }

    method Encode(payload: bytes) returns (r: Result<bytes>)
      ensures r == EncodeOuter(None, 0, payload)
    {
      r := MarshalEncPacket(0, payload);
    }

    method Parse(data: bytes) returns (r: Option<bytes>)
      modifies this
      ensures Pulled(r, buffer) == PullNext(old(buffer) + data)
    {
      ghost var whole := buffer + data;
      hide Crc16, GetWord, FirstStart, StartsAt, PullNext;
      var d := data;
      if |buffer| != 0 {
        d := buffer + data;
      }
      assert d == buffer + data;
      buffer := [];
      while |d| > 0
        invariant buffer == []
        invariant PullNext(whole) == PullNext(d)
      {
        PullTurn(d);
        var start := FirstStart(Outer(None), d, 0);
        if start == |d| {
          if d[|d| - 1] == MARK {
            buffer := [MARK];
          }
          return None;
        }
        d := d[start..];
        if |d| < 8 {
          buffer := d;
          return None;
        }
        var payloadLen := GetLength(d[4..6]);
        if payloadLen < 2 || payloadLen > 10000 {
          d := d[2..];
          continue;
        }
        var frameLen := 6 + payloadLen;
        if |d| < frameLen {
          buffer := d;
          return None;
        }
        var payload := d[6..frameLen - 2];
        var want := GetWord(d[frameLen - 2..frameLen]);
        var crc := Crc16ARC(d[..frameLen - 2]);
        if crc != want {
          d := d[2..];
          continue;
        }
        buffer := d[frameLen..];
        return Some(payload);
      }
      PullNothing();
      return None;
    }

    /** Feeding a notification and then asking for more until nothing comes is one push-style read. */
    method Drain(data: bytes) returns (payloads: seq<bytes>)
      modifies this
      ensures Done(payloads, buffer) == Scan(Outer(None), old(buffer) + data)
    {
      ghost var f, whole := Outer(None), buffer + data;
      hide Scan, PullNext;
      payloads := [];
      PullIsFirst(whole);
      var next := Parse(data);
      while next.Some?
        invariant Scan(f, whole) ==
                  Prepend(payloads, if next.None? then Done([], buffer) else Prepend([next.value], Scan(f, buffer)))
        decreases next.Some?, |buffer|
      {
        PrependLaws(payloads, [next.value], Scan(f, buffer));
        payloads := payloads + [next.value];
        PullIsFirst(buffer);
        assert buffer + [] == buffer;
        next := Parse([]);
      }
      assert payloads + [] == payloads;
    }
  }

  lemma PullNothing()
    ensures PullNext([]) == Pulled(None, [])
  {}

  // ----- Waiting for the reply to a command -----

  predicate Replies(payload: bytes, command: byte) {
    payload != [] && payload[0] == command
  }

  datatype SearchResult = Found(payload: bytes, rest: bytes) | NotFound(kept: bytes)

  /** The first frame of the stream that replies, and everything after it. */
  function Search(s: bytes, command: byte): SearchResult
    decreases |s|
  {
    match PullNext(s)
    case Pulled(None, kept) => NotFound(kept)
    case Pulled(Some(payload), rest) =>
      if Replies(payload, command) then Found(payload, rest) else Search(rest, command)
  }

  /** The search does not depend on where the stream was cut. */
  lemma {:induction false} SearchResumes(s: bytes, t: bytes, command: byte)
    ensures Search(s + t, command) ==
            match Search(s, command)
            case Found(payload, rest) => Found(payload, rest + t)
            case NotFound(kept) => Search(kept + t, command)
    decreases |s|
  {
    hide PullNext;
    PullResumes(s, t);
    match PullNext(s)
    case Pulled(None, kept) =>
    case Pulled(Some(payload), rest) =>
      if !Replies(payload, command) {
        SearchResumes(rest, t, command);
      }
  }

  // One pull of the search, from whatever is buffered.
  lemma SearchTurn(s: bytes, command: byte)
    ensures var p := PullNext(s);
            if p.payload.None? then
              Search(s, command) == NotFound(p.buffer) && Search(p.buffer, command) == NotFound(p.buffer)
            else if Replies(p.payload.value, command) then
              Search(s, command) == Found(p.payload.value, p.buffer)
            else
              Search(s, command) == Search(p.buffer, command)
  {
    hide PullNext, Replies;
    assert s + [] == s;
    PullResumes(s, []);
    if PullNext(s).payload.None? {
      assert PullNext(s).buffer + [] == PullNext(s).buffer;
    }
  }

  predicate NoReply(payloads: seq<bytes>, command: byte) {
    forall i :: 0 <= i < |payloads| ==> payloads[i] == [] || payloads[i][0] != command
  }

  /**
   * In terms of the push-style reading: what is found is its first replying payload, and what is left
   * yields exactly the later payloads, now and after any continuation.
   */
  lemma {:induction false} SearchIsFirstReply(s: bytes, command: byte) returns (n: nat)
    ensures var o := Scan(Outer(None), s);
            && o.Done?
            && match Search(s, command)
               case NotFound(kept) => o.buffer == kept && NoReply(o.payloads, command)
               case Found(payload, rest) =>
                 && n < |o.payloads| && o.payloads[n] == payload && payload != [] && payload[0] == command
                 && NoReply(o.payloads[..n], command)
                 && Scan(Outer(None), rest) == Done(o.payloads[n + 1..], o.buffer)
    decreases |s|
  {
    hide PullNext, Scan;
    PullIsFirst(s);
    n := 0;
    match PullNext(s)
    case Pulled(None, kept) =>
    case Pulled(Some(payload), rest) =>
      var m := SearchIsFirstReply(rest, command);
      var o, later := Scan(Outer(None), s), Scan(Outer(None), rest).payloads;
      assert o.payloads == [payload] + later;
      if Replies(payload, command) {
        assert o.payloads[1..] == later;
      } else {
        n := m + 1;
        FirstReplyAfter(payload, later, m, command);
      }
  }

  lemma FirstReplyAfter(payload: bytes, later: seq<bytes>, m: nat, command: byte)
    requires !Replies(payload, command)
    ensures m < |later| && NoReply(later[..m], command) ==>
              NoReply(([payload] + later)[..m + 1], command) && ([payload] + later)[m + 2..] == later[m + 1..]
    ensures NoReply(later, command) ==> NoReply([payload] + later, command)
  {
    if m < |later| {
      assert ([payload] + later)[..m + 1] == [payload] + later[..m];
    }
  }

  datatype Event = Chunk(data: bytes) | Cancel | Timeout

  datatype WaitResult = Got(payload: bytes) | Cancelled | TimedOut | Blocked

  function Notified(e: Event): bytes {
    if e.Chunk? then e.data else []
  }

  // After an unsuccessful search, the next chunk may be searched together with what was kept.
  lemma MoreReceived(start: bytes, kept: bytes, events: seq<Event>, n: nat, command: byte)
    requires n < |events| && events[n].Chunk?
    requires Search(start + Received(Notified, events, n), command) == NotFound(kept)
    ensures Search(start + Received(Notified, events, n + 1), command) == Search(kept + events[n].data, command)
  {
    hide Search;
    var heard := start + Received(Notified, events, n);
    SearchResumes(heard, events[n].data, command);
    assert start + Received(Notified, events, n + 1) == heard + events[n].data;
  }

  lemma NothingReceived(start: bytes, events: seq<Event>)
    ensures start + Received(Notified, events, 0) == start
  {}

  // The end of the wait is not part of what was received.
  lemma NoMoreReceived(events: seq<Event>, n: nat)
    requires n < |events| && !events[n].Chunk?
    ensures Received(Notified, events, n + 1) == Received(Notified, events, n)
  {}

  /**
   * Waits until a replying frame is complete, the wait ends, or the given events run out. It returns at
   * the earliest event that completes a reply, having consumed exactly the bytes up to that reply's end.
   */
  method WaitForSimplePayload(a: SimplePacketAssembler, events: seq<Event>, command: byte)
      returns (r: WaitResult, used: nat)
    modifies a
    ensures used <= |events|
    ensures forall k :: 0 <= k < used - (if r.Cancelled? || r.TimedOut? then 1 else 0) ==> events[k].Chunk?
    ensures forall k :: 0 <= k < used ==> Search(old(a.buffer) + Received(Notified, events, k), command).NotFound?
    ensures Search(old(a.buffer) + Received(Notified, events, used), command) ==
            if r.Got? then Found(r.payload, a.buffer) else NotFound(a.buffer)
    ensures r.Blocked? ==> used == |events|
    ensures r.Cancelled? ==> used > 0 && events[used - 1].Cancel?
    ensures r.TimedOut? ==> used > 0 && events[used - 1].Timeout?
  {
    hide PullNext, Search, Received;
    ghost var start := a.buffer;
    used := 0;
    NothingReceived(start, events);
    while true
      invariant used <= |events|
      invariant forall k :: 0 <= k < used ==> events[k].Chunk?
      invariant forall k :: 0 <= k < used ==> Search(start + Received(Notified, events, k), command).NotFound?
      invariant Search(start + Received(Notified, events, used), command) == Search(a.buffer, command)
      decreases |events| - used, |a.buffer|
    {
      assert a.buffer + [] == a.buffer;
      SearchTurn(a.buffer, command);
      var next := a.Parse([]);
      if next.Some? {
        if |next.value| > 0 && next.value[0] == command {
          return Got(next.value), used;
        }
        continue;
      }
      if used == |events| {
        return Blocked, used;
      }
      match events[used]
      case Cancel =>
        NoMoreReceived(events, used);
        used := used + 1;
        return Cancelled, used;
      case Timeout =>
        NoMoreReceived(events, used);
        used := used + 1;
        return TimedOut, used;
      case Chunk(data) =>
        MoreReceived(start, a.buffer, events, used, command);
        used := used + 1;
        SearchTurn(a.buffer + data, command);
        next := a.Parse(data);
        if next.Some? && |next.value| > 0 && next.value[0] == command {
          return Got(next.value), used;
        }
    }
  }

  /** What a wait came to, how many events it used, and the bytes it kept. */
  datatype Awaited = Awaited(result: WaitResult, used: nat, kept: bytes)

  /** A wait as a function of the bytes kept before it and the events it meets. */
  function Await(start: bytes, events: seq<Event>, command: byte): (w: Awaited)
    ensures w.used <= |events|
    decreases |events|
  {
    match Search(start, command)
    case Found(payload, rest) => Awaited(Got(payload), 0, rest)
    case NotFound(kept) =>
      if events == [] then Awaited(Blocked, 0, kept)
      else
        match events[0]
        case Cancel => Awaited(Cancelled, 1, kept)
        case Timeout => Awaited(TimedOut, 1, kept)
        case Chunk(data) =>
          var later := Await(kept + data, events[1..], command);
          later.(used := later.used + 1)
  }

  /** What the method above promises of a wait. */
  predicate Waited(start: bytes, events: seq<Event>, command: byte, w: Awaited) {
    && w.used <= |events|
    && (forall k :: 0 <= k < w.used - (if w.result.Cancelled? || w.result.TimedOut? then 1 else 0) ==> events[k].Chunk?)
    && (forall k :: 0 <= k < w.used ==> Search(start + Received(Notified, events, k), command).NotFound?)
    && Search(start + Received(Notified, events, w.used), command) ==
       (if w.result.Got? then Found(w.result.payload, w.kept) else NotFound(w.kept))
    && (w.result.Blocked? ==> w.used == |events|)
    && (w.result.Cancelled? ==> w.used > 0 && events[w.used - 1].Cancel?)
    && (w.result.TimedOut? ==> w.used > 0 && events[w.used - 1].Timeout?)
  }

  lemma {:induction false} FirstReceived(events: seq<Event>, n: nat)
    requires 0 < n <= |events|
    ensures Received(Notified, events, n) == Notified(events[0]) + Received(Notified, events[1..], n - 1)
    decreases n
  {
    if n > 1 {
      FirstReceived(events, n - 1);
      assert events[1..][n - 2] == events[n - 1];
    } else {
      assert Received(Notified, events, 1) == [] + Notified(events[0]);
      assert Received(Notified, events[1..], 0) == [];
    }
  }

  // After the first chunk the search goes on from what was kept, whatever comes later.
  lemma SearchAfterFirst(start: bytes, events: seq<Event>, command: byte, n: nat)
    requires 0 < n <= |events| && events[0].Chunk? && Search(start, command).NotFound?
    ensures var next := Search(start, command).kept + events[0].data;
            Search(start + Received(Notified, events, n), command) ==
            Search(next + Received(Notified, events[1..], n - 1), command)
  {
    hide Search, Received;
    var data, later := events[0].data, Received(Notified, events[1..], n - 1);
    FirstReceived(events, n);
    assert start + (data + later) == (start + (data + later));
    SearchResumes(start, data + later, command);
    assert Search(start, command).kept + (data + later) == (Search(start, command).kept + data) + later;
  }

  /** The function keeps the promise. */
  lemma {:induction false} AwaitIs(start: bytes, events: seq<Event>, command: byte)
    ensures Waited(start, events, command, Await(start, events, command))
    decreases |events|
  {
    hide Search, Received;
    var w := Await(start, events, command);
    NothingReceived(start, events);
    if w.used > 0 {
      if events[0].Chunk? {
        var next := Search(start, command).kept + events[0].data;
        AwaitIs(next, events[1..], command);
        forall k | 0 < k <= w.used
          ensures Search(start + Received(Notified, events, k), command) ==
                  Search(next + Received(Notified, events[1..], k - 1), command)
        {
          SearchAfterFirst(start, events, command, k);
        }
        forall k | 0 <= k < w.used - (if w.result.Cancelled? || w.result.TimedOut? then 1 else 0)
          ensures events[k].Chunk?
        {
          assert k > 0 ==> events[k] == events[1..][k - 1];
        }
        forall k | 0 <= k < w.used
          ensures Search(start + Received(Notified, events, k), command).NotFound?
        {
          assert k > 0 ==> Search(next + Received(Notified, events[1..], k - 1), command).NotFound?;
        }
      } else {
        NoMoreReceived(events, 0);
      }
    }
  }

  lemma NoShorterWait(start: bytes, events: seq<Event>, command: byte, v: Awaited, w: Awaited)
    requires Waited(start, events, command, v) && Waited(start, events, command, w)
    ensures v.used >= w.used
  {
    hide Search, Received;
  }

  /** The promise determines the wait. */
  lemma WaitUnique(start: bytes, events: seq<Event>, command: byte, v: Awaited, w: Awaited)
    requires Waited(start, events, command, v) && Waited(start, events, command, w)
    ensures v == w
  {
    hide Search, Received;
    NoShorterWait(start, events, command, v, w);
    NoShorterWait(start, events, command, w, v);
  }

  /**
   * Two waits on differently cut prefixes of one stream find the same reply and stop at the same byte,
   * so the next stage sees the same stream.
   */
  lemma SameReply(s1: bytes, t1: bytes, s2: bytes, t2: bytes, command: byte)
    requires s1 + t1 == s2 + t2
    requires Search(s1, command).Found? && Search(s2, command).Found?
    ensures Search(s1, command).payload == Search(s2, command).payload
    ensures Search(s1, command).rest + t1 == Search(s2, command).rest + t2
  {
    hide Search;
    SearchResumes(s1, t1, command);
    SearchResumes(s2, t2, command);
  }
}
