/** Bytes on the wire, and the little-endian fields made of them. */
module Bytes {

  newtype byte = x: int | 0 <= x < 0x100
  type word = bv16
  type bytes = seq<byte>

  datatype Option<+T> = None | Some(value: T)

  datatype Result<+T> = Ok(value: T) | Err(error: Error)

  /** Every way a codec operation can fail. */
  datatype Error =
    | PayloadTooLarge | BadPrefix | UnsupportedV4 | BadHeaderCheck | Incomplete | BadChecksum
    | BadBlockSize | PlaintextTooLarge | BadPaddedLength | BadPadding
    | NotBlockAligned | BodyTooShort | FrameTooLarge

  /** The bit pattern of a byte. */
  function Bits(b: byte): (v: bv8)
    ensures v as int == b as int
  {
    if b == 0 then 0 else Bits(b - 1) + 1
  }

  function ByteOf(v: bv8): (b: byte)
    ensures Bits(b) == v
  {
    var b := v as int as byte;
    SameBits(Bits(b), v);
    b
  }

  lemma SameBits(u: bv8, v: bv8)
    requires u as int == v as int
    ensures u == v
  {
    assert (u as int) as bv8 == u;
    assert (v as int) as bv8 == v;
  }

  /** A checksum field: an unsigned 16-bit word, low byte first. */
  function PutWord(w: word): (s: bytes)
    ensures |s| == 2 && GetWord(s) == w
  {
    var lo, hi := (w & 0xFF) as bv8, (w >> 8) as bv8;
    JoinSplit(w);
    [ByteOf(lo), ByteOf(hi)]
  }

  function GetWord(s: bytes): word
    requires |s| == 2
  {
    Join(Bits(s[0]), Bits(s[1]))
  }

  function Join(lo: bv8, hi: bv8): word {
    (lo as word) | ((hi as word) << 8)
  }

  lemma JoinSplit(w: word)
    ensures Join((w & 0xFF) as bv8, (w >> 8) as bv8) == w
  {}

  /** Two different checksum fields hold two different words. */
  lemma GetWordInjective(s: bytes, t: bytes)
    requires |s| == |t| == 2
    requires GetWord(s) == GetWord(t)
    ensures s == t
  {
    JoinInjective(Bits(s[0]), Bits(s[1]), Bits(t[0]), Bits(t[1]));
  }

  lemma JoinInjective(a: bv8, b: bv8, c: bv8, d: bv8)
    requires Join(a, b) == Join(c, d)
    ensures a == c && b == d
  {
    assert (Join(a, b) & 0xFF) as bv8 == a && (Join(c, d) & 0xFF) as bv8 == c;
    assert (Join(a, b) >> 8) as bv8 == b && (Join(c, d) >> 8) as bv8 == d;
  }

  /** A length field: an unsigned 16-bit number, low byte first. */
  function PutLength(n: nat): (s: bytes)
    requires n < 0x1_0000
    ensures |s| == 2
  {
    [(n % 0x100) as byte, (n / 0x100) as byte]
  }

  function GetLength(s: bytes): (n: nat)
    requires |s| == 2
    ensures n < 0x1_0000 && PutLength(n) == s
  {
    s[0] as int + 0x100 * (s[1] as int)
  }

  function Xor8(u: bv8, v: bv8): bv8 { u ^ v }

  lemma Xor8Laws(u: bv8, k: bv8)
    ensures Xor8(Xor8(u, k), k) == u
    ensures Xor8(u, k) == Xor8(k, u)
    ensures Xor8(u, 0) == u
  {}

  function XorByte(a: byte, b: byte): (r: byte)
    ensures Bits(r) == Xor8(Bits(a), Bits(b))
  {
    ByteOf(Xor8(Bits(a), Bits(b)))
  }

  lemma XorByteCancels(a: byte, k: byte)
    ensures XorByte(XorByte(a, k), k) == a
    ensures XorByte(a, 0) == a
  {
    Xor8Laws(Bits(a), Bits(k));
  }

  /** Bytewise xor of two strings of one length. */
  function XorAll(s: bytes, t: bytes): (r: bytes)
    requires |s| == |t|
    ensures |r| == |s| && forall i :: 0 <= i < |s| ==> r[i] == XorByte(s[i], t[i])
  {
    if s == [] then [] else [XorByte(s[0], t[0])] + XorAll(s[1..], t[1..])
  }
}
