/** The assemblers as the daemon runs them: objects that keep a buffer between notifications. */
module Assemblers {
  import opened Bytes
  import opened Crc
  import opened Encryption
  import opened Framing
  import opened Reassembly
  import opened StreamRoundTrip
  import Packet

  /** What a call that read s returns: the payloads, or the error that discards them. */
  function Answer(o: Outcome): Result<seq<bytes>> {
    match o
    case Done(payloads, _) => Ok(payloads)
    case Failed(error) => Err(error)
  }

  function KeptBuffer(o: Outcome): bytes {
    match o
    case Done(_, buffer) => buffer
    case Failed(_) => []
  }

  // What one turn of a reading loop needs to know about the rest of the loop.
  lemma Turn(f: Framing, whole: bytes, payloads: seq<bytes>, s: bytes)
    requires Scan(f, whole) == Prepend(payloads, Scan(f, s))
    ensures var k := FirstStart(f, s, 0);
            if k == |s| then Scan(f, whole) == Done(payloads, Leftover(f, s))
            else Scan(f, whole) == match Judge(f, s[k..])
                                   case Wait => Done(payloads, s[k..])
                                   case Skip(n) => Prepend(payloads, Scan(f, s[k..][n..]))
                                   case Emit(p, n) => Prepend(payloads + [p], Scan(f, s[k..][n..]))
                                   case Fail(error) => Failed(error)
  {
    hide Judge, FirstStart, Scan, ScanFrame, StartsAt, Leftover;
    var k := FirstStart(f, s, 0);
    ScanTurn(f, s);
    assert payloads + [] == payloads;
    if k < |s| {
      FrameTurn(f, s[k..]);
      if Judge(f, s[k..]).Emit? {
        var v := Judge(f, s[k..]);
        PrependLaws(payloads, [v.payload], Scan(f, s[k..][v.n..]));
      }
    }
  }

  lemma TurnsBegin(f: Framing, buffer: bytes, data: bytes, whole: bytes)
    requires whole == if buffer == [] then data else buffer + data
    ensures Scan(f, buffer + data) == Prepend([], Scan(f, whole))
  {
    hide Scan;
    PrependLaws([], [], Scan(f, whole));
    assert whole == buffer + data;
  }

  lemma TurnsEnd(f: Framing, whole: bytes, payloads: seq<bytes>)
    requires Scan(f, whole) == Prepend(payloads, Scan(f, []))
    ensures Scan(f, whole) == Done(payloads, [])
  {
    assert Scan(f, []) == Done([], []);
    assert payloads + [] == payloads;
  }

  class EncPacketAssembler {
    const encryption: Option<Strategy>
    var buffer: bytes

    /** The kept bytes are ones that reading again would keep: the premise of ChunkingInvariance. */
    ghost predicate Valid()
      reads this
    {
      Settled(Outer(encryption), buffer)
    }

    constructor (encryption: Option<Strategy>)
      ensures Valid() && this.encryption == encryption && buffer == []
    {
      this.encryption := encryption;
      buffer := [];
      new;
      EmptySettled(Outer(encryption));
    }

    method Encode(pkt: Pkt) returns (r: Result<bytes>)
      ensures r == StreamRoundTrip.Encode(Outer(encryption), pkt)
    {
      hide Packet.Marshal, Encrypt, MarshalFrame;
      var payload := Packet.MarshalBinary(pkt);
      if payload.Err? {
        return payload;
      }
      if encryption.Some? {
        payload := Encrypt(encryption.value, payload.value);
        if payload.Err? {
          return payload;
        }
      }
      r := MarshalEncPacket(1, payload.value);
    }

    method Reassemble(data: bytes) returns (r: Result<seq<bytes>>)
      requires Valid()
      modifies this
      ensures Valid()
      ensures r == Answer(Scan(Outer(encryption), old(buffer) + data))
      ensures buffer == KeptBuffer(Scan(Outer(encryption), old(buffer) + data))
    {
      ghost var f, whole := Outer(encryption), buffer + data;
      KeptIsSettled(f, whole);
      EmptySettled(f);
      hide Settled, Crc16, GetWord, Decrypt, FirstStart, Scan, StartsAt;
      var d := data;
      if |buffer| != 0 {
        d := buffer + data;
      }
      TurnsBegin(f, buffer, data, d);
      buffer := [];
      var payloads := [];
      while |d| > 0
        invariant buffer == []
        invariant Scan(f, whole) == Prepend(payloads, Scan(f, d))
      {
        Turn(f, whole, payloads, d);
        var start := FirstStart(Outer(encryption), d, 0);
        if start == |d| {
          if d[|d| - 1] == MARK {
            buffer := [MARK];
          }
          return Ok(payloads);
        }
        d := d[start..];
        if |d| < 8 {
          buffer := d;
          return Ok(payloads);
        }
        var payloadLen := GetLength(d[4..6]);
        if payloadLen < 2 || payloadLen > 10000 {
          d := d[2..];
          continue;
        }
        var frameLen := 6 + payloadLen;
        if |d| < frameLen {
          buffer := d;
          return Ok(payloads);
        }
        var payload := d[6..frameLen - 2];
        var want := GetWord(d[frameLen - 2..frameLen]);
        var crc := Crc16ARC(d[..frameLen - 2]);
        if crc != want {
          d := d[2..];
          continue;
        }
        d := d[frameLen..];
        if encryption.Some? {
          var plain := Decrypt(encryption.value, payload);
          if plain.Err? {
            return Err(plain.error);
          }
          payload := plain.value;
        }
        payloads := payloads + [payload];
      }
      TurnsEnd(f, whole, payloads);
      return Ok(payloads);
    }
  }

  class PassthroughAssembler {
    var buffer: bytes

    ghost predicate Valid()
      reads this
    {
      Settled(Passthrough, buffer)
    }

    constructor ()
      ensures Valid() && buffer == []
    {
      buffer := [];
      new;
      EmptySettled(Passthrough);
    }

    method Encode(pkt: Pkt) returns (r: Result<bytes>)
      ensures r == StreamRoundTrip.Encode(Passthrough, pkt)
    {
      r := Packet.MarshalBinary(pkt);
    }

    method Reassemble(data: bytes) returns (r: Result<seq<bytes>>)
      requires Valid()
      modifies this
      ensures Valid()
      ensures r == Answer(Scan(Passthrough, old(buffer) + data))
      ensures buffer == KeptBuffer(Scan(Passthrough, old(buffer) + data))
    {
      ghost var f, whole := Passthrough, buffer + data;
      KeptIsSettled(f, whole);
      EmptySettled(f);
      hide Settled, Crc8, GetLength, FirstStart, Scan, StartsAt;
      var d := data;
      if |buffer| != 0 {
        d := buffer + data;
      }
      TurnsBegin(f, buffer, data, d);
      buffer := [];
      var payloads := [];
      while |d| > 0
        invariant buffer == []
        invariant Scan(f, whole) == Prepend(payloads, Scan(f, d))
      {
        Turn(f, whole, payloads, d);
        var start := FirstStart(Passthrough, d, 0);
        if start == |d| {
          return Ok(payloads);
        }
        d := d[start..];
        if |d| < 5 {
          buffer := d;
          return Ok(payloads);
        }
        var check := Crc8CCITT(d[..4]);
        if check != d[4] {
          d := d[1..];
          continue;
        }
        var payloadLen := GetLength(d[2..4]);
        var version := d[1];
        var frameLen := 5 + Packet.PacketBodyLen(version, payloadLen);
        if |d| < frameLen {
          buffer := d;
          return Ok(payloads);
        }
        payloads := payloads + [d[..frameLen]];
        d := d[frameLen..];
      }
      TurnsEnd(f, whole, payloads);
      return Ok(payloads);
    }
  }

  class RawHeaderAssembler {
    const encryption: Strategy
    var buffer: bytes

    ghost predicate Valid()
      reads this
    {
      Settled(RawHeader(encryption), buffer)
    }

    constructor (encryption: Strategy)
      ensures Valid() && this.encryption == encryption && buffer == []
    {
      this.encryption := encryption;
      buffer := [];
      new;
      EmptySettled(RawHeader(encryption));
    }

    method Encode(pkt: Pkt) returns (r: Result<bytes>)
      ensures r == StreamRoundTrip.Encode(RawHeader(encryption), pkt)
    {
      hide Packet.Marshal, Encrypt, MarshalledLen;
      var raw := Packet.MarshalBinary(pkt);
      if raw.Err? {
        return raw;
      }
      MarshalBounds(pkt, raw.value);
      var encrypted := Encrypt(encryption, raw.value[5..]);
      if encrypted.Err? {
        return encrypted;
      }
      return Ok(raw.value[..5] + encrypted.value);
    }

    method Reassemble(data: bytes) returns (r: Result<seq<bytes>>)
      requires Valid()
      modifies this
      ensures Valid()
      ensures r == Answer(Scan(RawHeader(encryption), old(buffer) + data))
      ensures buffer == KeptBuffer(Scan(RawHeader(encryption), old(buffer) + data))
    {
      ghost var f, whole := RawHeader(encryption), buffer + data;
      KeptIsSettled(f, whole);
      EmptySettled(f);
      hide Settled, Crc8, GetLength, Decrypt, FirstStart, Scan, StartsAt, Packet.PacketBodyLen;
      var d := data;
      if |buffer| != 0 {
        d := buffer + data;
      }
      TurnsBegin(f, buffer, data, d);
      buffer := [];
      var payloads := [];
      while |d| > 0
        invariant buffer == []
        invariant Scan(f, whole) == Prepend(payloads, Scan(f, d))
      {
        Turn(f, whole, payloads, d);
        var start := FirstStart(RawHeader(encryption), d, 0);
        if start == |d| {
          return Ok(payloads);
        }
        d := d[start..];
        if |d| < 5 {
          buffer := d;
          return Ok(payloads);
        }
        var check := Crc8CCITT(d[..4]);
        if check != d[4] {
          d := d[1..];
          continue;
        }
        var payloadLen := GetLength(d[2..4]);
        var version := d[1];
        var innerLen := Packet.PacketBodyLen(version, payloadLen);
        var encryptedLen := (innerLen + BLOCK - 1) / BLOCK * BLOCK;
        assert encryptedLen == RoundUp(innerLen);
        hide RoundUp;
        var frameLen := 5 + encryptedLen;
        if |d| < frameLen {
          buffer := d;
          return Ok(payloads);
        }
        var body := Decrypt(encryption, d[5..frameLen]);
        if body.Err? {
          return Err(body.error);
        }
        if |body.value| < innerLen {
          return Err(BodyTooShort);
        }
        payloads := payloads + [d[..5] + body.value[..innerLen]];
        d := d[frameLen..];
      }
      TurnsEnd(f, whole, payloads);
      return Ok(payloads);
    }
  }

  /** The assembler a session was set up with. */
  datatype FrameAssembler =
    | Enc(enc: EncPacketAssembler)
    | Pass(pass: PassthroughAssembler)
    | Raw(raw: RawHeaderAssembler)
  {
    function Object(): object {
      match this
      case Enc(a) => a
      case Pass(a) => a
      case Raw(a) => a
    }

    function Framing(): Framing {
      match this
      case Enc(a) => Outer(a.encryption)
      case Pass(_) => Passthrough
      case Raw(a) => RawHeader(a.encryption)
    }

    function Buffer(): bytes
      reads Object()
    {
      match this
      case Enc(a) => a.buffer
      case Pass(a) => a.buffer
      case Raw(a) => a.buffer
    }

    ghost predicate Valid()
      reads Object()
    {
      Settled(Framing(), Buffer())
    }

    method Encode(pkt: Pkt) returns (r: Result<bytes>)
      ensures r == StreamRoundTrip.Encode(Framing(), pkt)
    {
      hide StreamRoundTrip.Encode;
      match this
      case Enc(a) => r := a.Encode(pkt);
      case Pass(a) => r := a.Encode(pkt);
      case Raw(a) => r := a.Encode(pkt);
    }

    method Reassemble(data: bytes) returns (r: Result<seq<bytes>>)
      requires Valid()
      modifies Object()
      ensures Valid()
      ensures r == Answer(Scan(Framing(), old(Buffer()) + data))
      ensures Buffer() == KeptBuffer(Scan(Framing(), old(Buffer()) + data))
    {
      match this
      case Enc(a) => r := a.Reassemble(data);
      case Pass(a) => r := a.Reassemble(data);
      case Raw(a) => r := a.Reassemble(data);
    }
  }
}
