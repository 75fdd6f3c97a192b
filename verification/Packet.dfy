/** The inner packet: printed by `MarshalBinary`, read back by `ParsePacket`. */
module Packet {
  import opened Bytes
  import opened Crc

  const PREFIX: byte := 0xAA
  const MAX_PAYLOAD: nat := 0xFFFF

  type Sequence = s: bytes | |s| == 4 witness [0, 0, 0, 0]

  datatype Packet = Packet(
    src: byte, dst: byte, cmdSet: byte, cmdId: byte, payload: bytes,
    dSrc: byte, dDst: byte, version: byte, seqNo: Sequence, productId: byte)

  // ----- What a version byte says about the layout -----

  /** `version & 0x10 != 0`: the payload carries its own terminator and no checksum follows. */
  predicate Sentinel(v: byte) {
    v / 0x10 % 2 == 1
  }

  /** `version & 0x0F >= 3`: the reader expects two more address bytes. */
  predicate Wide(v: byte) {
    v % 0x10 >= 3
  }

  /** The writer decides by the whole byte instead. */
  predicate WrittenWide(v: byte) {
    v >= 3
  }

  /** The versions for which reader, writer and stream framing agree on one layout with a checksum. */
  predicate CrcFormat(v: byte) {
    v != 4 && v / 0x10 % 2 == 0 && (v >= 3 <==> v % 0x10 >= 3)
  }

  /** The bytes that follow the five-byte header, as the stream readers compute them. */
  function PacketBodyLen(version: byte, payloadLen: nat): nat {
    if version == 4 then 5 + payloadLen
    else
      (if Wide(version) then 15 else 13) - (if Sentinel(version) then 2 else 0) + payloadLen
  }

  // ----- Printing -----

  function OrDefault(b: byte, d: byte): byte {
    if b == 0 then d else b
  }

  function Preamble(version: byte, n: nat): (s: bytes)
    requires n <= MAX_PAYLOAD
    ensures |s| == 4
  {
    [PREFIX, version] + PutLength(n)
  }

  function Header(version: byte, n: nat): (s: bytes)
    requires n <= MAX_PAYLOAD
    ensures |s| == 5
  {
    Preamble(version, n) + [Crc8(Preamble(version, n))]
  }

  function Fields(p: Packet): (s: bytes)
    ensures |s| == if WrittenWide(p.version) then 13 else 11
  {
    [OrDefault(p.productId, 0x0D)] + p.seqNo + [0, 0, p.src, p.dst]
    + (if WrittenWide(p.version) then [OrDefault(p.dSrc, 1), OrDefault(p.dDst, 1)] else [])
    + [p.cmdSet, p.cmdId]
  }

  function Unsealed(p: Packet): (s: bytes)
    requires |p.payload| <= MAX_PAYLOAD
  {
    Header(p.version, |p.payload|) + Fields(p) + p.payload
  }

  function Marshal(p: Packet): Result<bytes> {
    if |p.payload| > MAX_PAYLOAD then Err(PayloadTooLarge)
    else Ok(Unsealed(p) + PutWord(Crc16(Unsealed(p))))
  }

  method MarshalBinary(p: Packet) returns (r: Result<bytes>)
    ensures r == Marshal(p)
  {
    hide Crc8, Crc16, PutWord, PutLength;
    if |p.payload| > MAX_PAYLOAD {
      return Err(PayloadTooLarge);
    }
    var buf: bytes := [PREFIX];
    buf := buf + [p.version];
    buf := buf + PutLength(|p.payload|);
    assert buf == Preamble(p.version, |p.payload|);
    var check := Crc8CCITT(buf);
    buf := buf + [check];
    ghost var header := buf;
    var product := p.productId;
    if product == 0 {
      product := 0x0D;
    }
    buf := buf + [product];
    buf := buf + p.seqNo;
    buf := buf + [0, 0];
    buf := buf + [p.src];
    buf := buf + [p.dst];
    ghost var fixed := [product] + p.seqNo + [0, 0, p.src, p.dst];
    assert buf == header + fixed;
    if p.version >= 3 {
      var dsrc, ddst := p.dSrc, p.dDst;
      if dsrc == 0 {
        dsrc := 1;
      }
      if ddst == 0 {
        ddst := 1;
      }
      buf := buf + [dsrc];
      buf := buf + [ddst];
      assert buf == header + (fixed + [dsrc, ddst]);
      fixed := fixed + [dsrc, ddst];
    }
    buf := buf + [p.cmdSet];
    buf := buf + [p.cmdId];
    assert Fields(p) == fixed + [p.cmdSet, p.cmdId];
    assert buf == header + Fields(p);
    buf := buf + p.payload;
    var crc := Crc16ARC(buf);
    buf := buf + PutWord(crc);
    return Ok(buf);
  }

  // ----- Parsing -----

  function Mask(s: bytes, k: byte): (r: bytes)
    ensures |r| == |s| && forall i :: 0 <= i < |s| ==> r[i] == XorByte(s[i], k)
  {
    seq(|s|, i requires 0 <= i < |s| => XorByte(s[i], k))
  }

  /** The xor key the payload was written with. */
  function Key(p: Packet, xorPayload: bool): byte {
    if xorPayload then p.seqNo[0] else 0
  }

  predicate Terminated(payload: bytes) {
    |payload| >= 2 && payload[|payload| - 2..] == [0xBB, 0xBB]
  }

  function StripTerminator(v: byte, payload: bytes): bytes {
    if Sentinel(v) && Terminated(payload) then payload[..|payload| - 2] else payload
  }

  function PayloadStart(v: byte): nat {
    if Wide(v) then 18 else 16
  }

  function TotalLen(v: byte, n: nat): nat {
    PayloadStart(v) + n + if Sentinel(v) then 0 else 2
  }

  /** Why bytes do not begin with a complete, intact packet; the first reason in the reader's order. */
  function Defect(data: bytes): (r: Option<Error>)
    ensures r.None? ==> |data| >= 5 && |data| >= TotalLen(data[1], GetLength(data[2..4]))
  {
    if |data| < 5 || data[0] != PREFIX then Some(BadPrefix)
    else if data[1] == 4 then Some(UnsupportedV4)
    else if Crc8(data[..4]) != data[4] then Some(BadHeaderCheck)
    else
      var v := data[1];
      var total := TotalLen(v, GetLength(data[2..4]));
      if |data| < total then Some(Incomplete)
      else if !Sentinel(v) && Crc16(data[..total - 2]) != GetWord(data[total - 2..total]) then Some(BadChecksum)
      else None
  }

  /** The fields of the packet that the data begin with. */
  function Fill(data: bytes, xorPayload: bool): Packet
    requires |data| >= 5 && |data| >= TotalLen(data[1], GetLength(data[2..4]))
  {
    var v, n := data[1], GetLength(data[2..4]);
    var start, key := PayloadStart(v), if xorPayload then data[6] else 0;
    Packet(
      data[12], data[13],
      if Wide(v) then data[16] else data[14],
      if Wide(v) then data[17] else data[15],
      StripTerminator(v, Mask(data[start..start + n], key)),
      if Wide(v) then data[14] else 0,
      if Wide(v) then data[15] else 0,
      v, data[6..10], data[5])
  }

  function Parse(data: bytes, xorPayload: bool): Result<Packet> {
    match Defect(data)
    case Some(error) => Err(error)
    case None => Ok(Fill(data, xorPayload))
  }

  method XorPayload(wire: bytes, k: byte) returns (payload: bytes)
    ensures payload == Mask(wire, k)
  {
    payload := wire;
    for i := 0 to |payload|
      invariant |payload| == |wire|
      invariant forall j :: 0 <= j < i ==> payload[j] == XorByte(wire[j], k)
      invariant forall j :: i <= j < |wire| ==> payload[j] == wire[j]
    {
      payload := payload[i := XorByte(payload[i], k)];
    }
  }

  method ParsePacket(data: bytes, xorPayload: bool) returns (r: Result<Packet>)
    ensures r == Parse(data, xorPayload)
  {
    hide Crc8, Crc16, GetWord, GetLength, Mask, XorByte;
    if |data| < 5 || data[0] != PREFIX {
      return Err(BadPrefix);
    }
    var version := data[1];
    if version == 4 {
      return Err(UnsupportedV4);
    }
    var payloadLen := GetLength(data[2..4]);
    var check := Crc8CCITT(data[..4]);
    if check != data[4] {
      return Err(BadHeaderCheck);
    }
    var packetVersion := version % 0x10;
    var sentinelFormat := version / 0x10 % 2 == 1;
    assert sentinelFormat == Sentinel(version) && (packetVersion >= 3) == Wide(version);
    hide Sentinel, Wide;
    var payloadStart := 16;
    if packetVersion >= 3 {
      payloadStart := 18;
    }
    var totalLen := payloadStart + payloadLen + 2;
    if sentinelFormat {
      totalLen := payloadStart + payloadLen;
    }
    assert payloadStart == PayloadStart(version) && totalLen == TotalLen(version, payloadLen);
    hide PayloadStart, TotalLen;
    if |data| < totalLen {
      return Err(Incomplete);
    }
    if !sentinelFormat {
      var crc := Crc16ARC(data[..totalLen - 2]);
      if crc != GetWord(data[totalLen - 2..totalLen]) {
        return Err(BadChecksum);
      }
    }
    var dSrc, dDst, cmdSet, cmdId := 0, 0, data[14], data[15];
    if packetVersion >= 3 {
      dSrc, dDst, cmdSet, cmdId := data[14], data[15], data[16], data[17];
    }
    var payload: bytes := [];
    if payloadLen > 0 {
      payload := data[payloadStart..payloadStart + payloadLen];
      if xorPayload && data[6] != 0 {
        payload := XorPayload(payload, data[6]);
      } else {
        MaskZero(payload);
      }
      if sentinelFormat && |payload| >= 2 && payload[|payload| - 2..] == [0xBB, 0xBB] {
        payload := payload[..|payload| - 2];
      }
    }
    r := Ok(Packet(data[12], data[13], cmdSet, cmdId, payload, dSrc, dDst, version, data[6..10], data[5]));
  }

  lemma MaskZero(s: bytes)
    ensures Mask(s, 0) == s
  {
    forall i | 0 <= i < |s|
      ensures Mask(s, 0)[i] == s[i]
    {
      XorByteCancels(s[i], 0);
    }
  }

  lemma MaskCancels(s: bytes, k: byte)
    ensures Mask(Mask(s, k), k) == s
  {
    forall i | 0 <= i < |s|
      ensures Mask(Mask(s, k), k)[i] == s[i]
    {
      XorByteCancels(s[i], k);
    }
  }
}
