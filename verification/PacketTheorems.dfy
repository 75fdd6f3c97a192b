/** What printing and parsing promise together: round trip, length, and detection of corruption. */
module PacketTheorems {
  import opened Bytes
  import opened Crc
  import opened Packet

  /** The packet a reader of the written layout gets: the writer's defaults filled in. */
  function Defaulted(p: Packet): Packet {
    p.(productId := if p.productId == 0 then 0x0D else p.productId,
       dSrc := if p.version < 3 then 0 else if p.dSrc == 0 then 1 else p.dSrc,
       dDst := if p.version < 3 then 0 else if p.dDst == 0 then 1 else p.dDst)
  }

  /** The packet as its sender masks it before printing. */
  function Masked(p: Packet, xorPayload: bool): Packet {
    p.(payload := Mask(p.payload, Key(p, xorPayload)))
  }

  /** Packets as their sender masks them, and as their receiver reads them back. */
  function AllMasked(ps: seq<Packet>, xorPayload: bool): (qs: seq<Packet>)
    ensures |qs| == |ps| && forall i :: 0 <= i < |ps| ==> qs[i] == Masked(ps[i], xorPayload)
  {
    seq(|ps|, i requires 0 <= i < |ps| => Masked(ps[i], xorPayload))
  }

  function AllDefaulted(ps: seq<Packet>): (qs: seq<Packet>)
    ensures |qs| == |ps| && forall i :: 0 <= i < |ps| ==> qs[i] == Defaulted(ps[i])
  {
    seq(|ps|, i requires 0 <= i < |ps| => Defaulted(ps[i]))
  }

  predicate EndsInTwo(s: bytes, b: byte) {
    |s| >= 2 && s[|s| - 2] == b && s[|s| - 1] == b
  }

  /** Exactly the packets that survive printing and parsing. */
  predicate Survives(p: Packet) {
    && p.version != 4
    && (p.version >= 3 <==> p.version % 0x10 >= 3)
    && !(p.version / 0x10 % 2 == 1 && EndsInTwo(p.payload, 0xBB))
  }

  function WrittenStart(v: byte): nat {
    if v < 3 then 16 else 18
  }

  /** Where everything lies in a printed packet. */
  predicate LaidOut(p: Packet, m: bytes) {
    var n, start := |p.payload|, WrittenStart(p.version);
    && |m| == start + n + 2
    && m[0] == 0xAA && m[1] == p.version && m[2] as nat + 0x100 * m[3] as nat == n == GetLength(m[2..4])
    && Crc8(m[..4]) == m[4]
    && m[5] == (if p.productId == 0 then 0x0D else p.productId) && m[6..10] == p.seqNo
    && m[10] == 0 && m[11] == 0 && m[12] == p.src && m[13] == p.dst
    && m[start - 2] == p.cmdSet && m[start - 1] == p.cmdId
    && (p.version >= 3 ==>
          && m[14] == (if p.dSrc == 0 then 1 else p.dSrc)
          && m[15] == (if p.dDst == 0 then 1 else p.dDst))
    && m[start..start + n] == p.payload
    && GetWord(m[start + n..]) == Crc16(m[..start + n])
  }

  lemma Layout(p: Packet, m: bytes)
    requires Marshal(p) == Ok(m)
    ensures LaidOut(p, m)
  {
    hide Crc8, Crc16, PutWord, GetWord;
    var h, f, n, u := Header(p.version, |p.payload|), Fields(p), |p.payload|, Unsealed(p);
    var start := WrittenStart(p.version);
    assert m == u + PutWord(Crc16(u)) && |u| == start + n;
    assert m[..start + n] == u && m[start + n..] == PutWord(Crc16(u));
    assert m[..5] == h && h[..4] == Preamble(p.version, n);
    assert m[..4] == m[..5][..4];
    assert m[2..4] == m[..4][2..4] == PutLength(n);
    assert m[5..start] == f;
    assert m[6..10] == f[1..5] == p.seqNo;
    assert m[10] == f[5] && m[11] == f[6] && m[12] == f[7] && m[13] == f[8] && m[14] == f[9] && m[15] == f[10];
    assert m[start - 2] == f[|f| - 2] && m[start - 1] == f[|f| - 1];
  }

  /** What a version byte says, bit by bit, and what ends a payload. */
  lemma VersionBits(v: byte)
    ensures (Sentinel(v) <==> v / 0x10 % 2 == 1) && (Wide(v) <==> v % 0x10 >= 3) && (WrittenWide(v) <==> v >= 3)
  {}

  lemma TerminatorIs(s: bytes)
    ensures Terminated(s) <==> EndsInTwo(s, 0xBB)
  {}

  // A reader that agrees with the writer about the header's width accepts what was printed.
  lemma PrintedAccepted(p: Packet, m: bytes)
    requires Marshal(p) == Ok(m) && p.version != 4 && (WrittenWide(p.version) <==> Wide(p.version))
    ensures Defect(m) == None
  {
    hide Marshal, Crc8, Crc16, GetWord, GetLength, Sentinel, Wide, WrittenWide;
    Layout(p, m);
    VersionBits(p.version);
    var total := TotalLen(p.version, |p.payload|);
    if !Sentinel(p.version) {
      assert m[total - 2..total] == m[total - 2..];
    }
  }

  lemma PrintedParses(p: Packet, xorPayload: bool, m: bytes)
    requires Marshal(p) == Ok(m) && p.version != 4 && (WrittenWide(p.version) <==> Wide(p.version))
    ensures Parse(m, xorPayload) ==
            Ok(Defaulted(p).(payload := StripTerminator(p.version, Mask(p.payload, Key(p, xorPayload)))))
  {
    hide Marshal, Defect, Crc8, Crc16, GetWord, GetLength, Mask, StripTerminator, Sentinel, Wide, WrittenWide;
    PrintedAccepted(p, m);
    Layout(p, m);
    VersionBits(p.version);
    assert m[6] == m[6..10][0];
  }

  // Every other version is refused, or read back without the DSrc that was written.
  lemma PrintedMisread(p: Packet, xorPayload: bool, m: bytes)
    requires Marshal(p) == Ok(m) && (p.version == 4 || WrittenWide(p.version) != Wide(p.version))
    ensures Parse(m, xorPayload).Ok? ==> Parse(m, xorPayload).value.dSrc != Defaulted(p).dSrc
  {
    hide Marshal, Crc8, Crc16, GetWord, GetLength, Mask, StripTerminator, Sentinel;
    Layout(p, m);
    if p.version == 4 {
      assert Defect(m) == Some(UnsupportedV4) || Defect(m) == Some(BadPrefix);
    } else {
      hide Defect;
    }
  }

  /** Printing then parsing gives the packet back, defaults applied, exactly when Survives holds. */
  lemma RoundTrip(p: Packet, xorPayload: bool, m: bytes)
    requires Marshal(Masked(p, xorPayload)) == Ok(m)
    ensures Parse(m, xorPayload) == Ok(Defaulted(p)) <==> Survives(p)
  {
    hide Marshal, Parse, Mask, Terminated, Sentinel, Wide, WrittenWide;
    VersionBits(p.version);
    TerminatorIs(p.payload);
    var q := Masked(p, xorPayload);
    MaskCancels(p.payload, Key(p, xorPayload));
    if p.version == 4 || WrittenWide(p.version) != Wide(p.version) {
      PrintedMisread(q, xorPayload, m);
    } else {
      PrintedParses(q, xorPayload, m);
    }
  }

  /** The printed length is what both readers compute from the header, exactly for the CRC format. */
  lemma LengthAgrees(p: Packet, m: bytes)
    requires Marshal(p) == Ok(m)
    ensures |m| == 5 + PacketBodyLen(p.version, |p.payload|) <==> CrcFormat(p.version)
    ensures CrcFormat(p.version) ==> |m| == TotalLen(p.version, |p.payload|)
  {
    hide Marshal, Crc8, Crc16, GetWord, GetLength;
    Layout(p, m);
  }

  // A changed header byte is caught by the prefix test, the version test or the check byte.
  lemma HeaderCorrupted(m: bytes, i: nat, b: byte, xorPayload: bool)
    requires |m| >= 5 && i < 5 && b != m[i] && Crc8(m[..4]) == m[4]
    ensures Parse(m[i := b], xorPayload).Err?
  {
    hide Crc8, Crc16, GetWord, GetLength;
    var c := m[i := b];
    if i < 4 {
      assert c[..4] == m[..4][i := b];
      Crc8DetectsByte(m[..4], i, b);
    } else {
      assert c[..4] == m[..4];
    }
  }

  // A changed byte elsewhere leaves the header alone, so the checksum sees it.
  lemma BodyCorrupted(m: bytes, i: nat, b: byte)
    requires |m| >= 2 && i < |m| && b != m[i]
    requires GetWord(m[|m| - 2..]) == Crc16(m[..|m| - 2])
    ensures var c := m[i := b]; GetWord(c[|m| - 2..]) != Crc16(c[..|m| - 2])
  {
    hide Crc16, GetWord;
    var c, k := m[i := b], |m| - 2;
    if i < k {
      assert c[..k] == m[..k][i := b] && c[k..] == m[k..];
      Crc16DetectsByte(m[..k], i, b);
    } else {
      assert c[..k] == m[..k] && c[k..][i - k] != m[k..][i - k];
      if GetWord(c[k..]) == GetWord(m[k..]) {
        GetWordInjective(c[k..], m[k..]);
      }
    }
  }

  // A changed byte past the header leaves the header, and every slice of it, as it was.
  lemma HeaderSlices(m: bytes, i: nat, b: byte)
    requires 5 <= i < |m|
    ensures var c := m[i := b];
      c[..4] == m[..4] && c[2..4] == m[2..4] && c[..5] == m[..5] && c[|m| - 2..|m|] == c[|m| - 2..]
  {}

  /** Versions above 15 that the writer prints wide and the reader, going by the low nibble, reads narrow. */
  predicate Misread(v: byte) {
    v != 4 && v / 0x10 % 2 == 0 && v >= 3 && v % 0x10 < 3
  }

  /** Two bytes short of the printed checksum the reader finds a checksum that fits. */
  predicate FitsNarrow(c: bytes, n: nat)
    requires |c| >= 18 + n
  {
    Crc16(c[..16 + n]) == GetWord(c[16 + n..18 + n])
  }

  /**
   * Changing one byte of a printed packet makes the parser fail exactly if the byte lies in the header,
   * or the version has the CRC format, or it is unsupported to begin with, or it is misread and no
   * checksum fits by accident. A sentinel packet's body is not protected.
   */
  lemma CorruptionDetected(p: Packet, m: bytes, i: nat, b: byte, xorPayload: bool)
    requires Marshal(p) == Ok(m) && i < |m| && b != m[i]
    ensures |m| >= 18 + |p.payload|
    ensures Parse(m[i := b], xorPayload).Err? <==>
            || i < 5 || CrcFormat(p.version) || p.version == 4
            || (Misread(p.version) && !FitsNarrow(m[i := b], |p.payload|))
  {
    hide Marshal, Parse, Crc8, Crc16, GetWord, GetLength, FitsNarrow;
    Layout(p, m);
    VersionBits(p.version);
    if i < 5 {
      HeaderCorrupted(m, i, b, xorPayload);
    } else if CrcFormat(p.version) {
      CorruptedChecked(p, m, i, b, xorPayload);
    } else if p.version == 4 {
      CorruptedV4(p, m, i, b, xorPayload);
    } else if Sentinel(p.version) {
      CorruptedSentinel(p, m, i, b, xorPayload);
    } else {
      CorruptedMisread(p, m, i, b, xorPayload);
    }
  }

  lemma CorruptedMisread(p: Packet, m: bytes, i: nat, b: byte, xorPayload: bool)
    requires Marshal(p) == Ok(m) && 5 <= i < |m| && Misread(p.version)
    ensures |m| >= 18 + |p.payload|
    ensures Parse(m[i := b], xorPayload).Ok? <==> FitsNarrow(m[i := b], |p.payload|)
  {
    hide Marshal, Fill, Crc8, Crc16, GetWord, GetLength, Sentinel, Wide, WrittenWide;
    Layout(p, m);
    VersionBits(p.version);
    HeaderSlices(m, i, b);
  }

  lemma CorruptedSentinel(p: Packet, m: bytes, i: nat, b: byte, xorPayload: bool)
    requires Marshal(p) == Ok(m) && 5 <= i < |m| && Sentinel(p.version) && p.version != 4
    ensures Parse(m[i := b], xorPayload).Ok?
  {
    hide Marshal, Fill, Crc8, Crc16, GetWord, GetLength, Wide, WrittenWide;
    Layout(p, m);
    VersionBits(p.version);
    HeaderSlices(m, i, b);
  }

  lemma CorruptedChecked(p: Packet, m: bytes, i: nat, b: byte, xorPayload: bool)
    requires Marshal(p) == Ok(m) && 5 <= i < |m| && b != m[i] && CrcFormat(p.version)
    ensures Parse(m[i := b], xorPayload).Err?
  {
    hide Marshal, Fill, Crc8, Crc16, GetWord, GetLength, Wide, WrittenWide;
    Layout(p, m);
    VersionBits(p.version);
    HeaderSlices(m, i, b);
    BodyCorrupted(m, i, b);
  }

  lemma CorruptedV4(p: Packet, m: bytes, i: nat, b: byte, xorPayload: bool)
    requires Marshal(p) == Ok(m) && 5 <= i < |m| && p.version == 4
    ensures Parse(m[i := b], xorPayload).Err?
  {
    hide Marshal, Fill, Crc8, Crc16, GetWord, GetLength, Wide, WrittenWide;
    Layout(p, m);
    VersionBits(p.version);
  }
}
