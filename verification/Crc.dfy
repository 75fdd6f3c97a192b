/** The two bitwise CRCs of the wire format, and the algebra that makes them detect errors. */
module Crc {
  import opened Bytes

  // ----- What the two checksums share: a state updated byte by byte -----

  function Fold<C>(step: (C, byte) -> C, c: C, s: bytes): C
    decreases |s|
  {
    if s == [] then c else Fold(step, step(c, s[0]), s[1..])
  }

  /** A step that loses nothing: injective in the state and in the byte. */
  ghost predicate Lossless<C(!new)>(step: (C, byte) -> C) {
    && (forall x, y, b :: step(x, b) == step(y, b) ==> x == y)
    && (forall x, a, b :: step(x, a) == step(x, b) ==> a == b)
  }

  // One turn of folding, and its end.
  lemma FoldTurn<C>(step: (C, byte) -> C, c: C, s: bytes, k: nat)
    requires k < |s|
    ensures Fold(step, c, s[k..]) == Fold(step, step(c, s[k]), s[k + 1..])
  {
    assert s[k..][1..] == s[k + 1..];
  }

  lemma FoldEnd<C>(step: (C, byte) -> C, c: C, s: bytes)
    ensures Fold(step, c, s[|s|..]) == c
  {}

  lemma {:induction false} FoldConcat<C>(step: (C, byte) -> C, c: C, s: bytes, t: bytes)
    ensures Fold(step, c, s + t) == Fold(step, Fold(step, c, s), t)
    decreases |s|
  {
    if s == [] {
      assert s + t == t;
    } else {
      assert (s + t)[1..] == s[1..] + t;
      FoldConcat(step, step(c, s[0]), s[1..], t);
    }
  }

  lemma FoldTwo<C>(step: (C, byte) -> C, c: C, f: bytes)
    requires |f| == 2
    ensures Fold(step, c, f) == step(step(c, f[0]), f[1])
  {
    assert Fold(step, step(c, f[0]), f[1..]) == Fold(step, step(step(c, f[0]), f[1]), f[1..][1..]);
  }

  lemma {:induction false} FoldInjective<C(!new)>(step: (C, byte) -> C, c: C, d: C, s: bytes)
    requires Lossless(step) && Fold(step, c, s) == Fold(step, d, s)
    ensures c == d
    decreases |s|
  {
    if s != [] {
      FoldInjective(step, step(c, s[0]), step(d, s[0]), s[1..]);
    }
  }

  /** A lossless checksum changes whenever exactly one byte changes. */
  lemma FoldDetectsByte<C(!new)>(step: (C, byte) -> C, c: C, s: bytes, i: nat, b: byte)
    requires Lossless(step) && i < |s| && b != s[i]
    ensures Fold(step, c, s[i := b]) != Fold(step, c, s)
  {
    var before, after := s[..i], s[i + 1..];
    assert s == before + ([s[i]] + after) && s[i := b] == before + ([b] + after);
    FoldConcat(step, c, before, [s[i]] + after);
    FoldConcat(step, c, before, [b] + after);
    var d := Fold(step, c, before);
    assert ([s[i]] + after)[1..] == after && ([b] + after)[1..] == after;
    if Fold(step, c, s[i := b]) == Fold(step, c, s) {
      FoldInjective(step, step(d, b), step(d, s[i]), after);
    }
  }

  // ----- CRC-16/ARC: reflected, polynomial 0xA001 -----

  function Xor16(a: word, b: word): word { a ^ b }

  function Crc16Bit(c: word): word {
    if c & 1 != 0 then (c >> 1) ^ 0xA001 else c >> 1
  }

  function Crc16Bits(c: word, n: nat): word
    decreases n
  {
    if n == 0 then c else Crc16Bit(Crc16Bits(c, n - 1))
  }

  function Widen(v: bv8): word { v as word }

  function Mix16(c: word, b: byte): word {
    Xor16(c, Widen(Bits(b)))
  }

  function Crc16Byte(c: word, b: byte): word {
    Crc16Bits(Mix16(c, b), 8)
  }

  function Crc16(s: bytes): word {
    Fold(Crc16Byte, 0, s)
  }

  method Crc16ARC(data: bytes) returns (crc: word)
    ensures crc == Crc16(data)
  {
    hide Fold, Crc16Byte, Crc16Bits, Crc16Bit, Mix16;
    crc := 0;
    assert data[0..] == data;
    for k := 0 to |data|
      invariant Fold(Crc16Byte, crc, data[k..]) == Crc16(data)
    {
      ghost var mixed := Mix16(crc, data[k]);
      FoldTurn(Crc16Byte, crc, data, k);
      Crc16Rounds(crc, data[k]);
      crc := Mix16(crc, data[k]);
      for i := 0 to 8
        invariant crc == Crc16Bits(mixed, i)
      {
        Crc16Round(mixed, i);
        crc := Shift16(crc);
      }
    }
    FoldEnd(Crc16Byte, crc, data);
  }

  method Shift16(c: word) returns (r: word)
    ensures r == Crc16Bit(c)
  {
    if c & 1 != 0 {
      r := (c >> 1) ^ 0xA001;
    } else {
      r := c >> 1;
    }
  }

  // One byte is eight bit steps.
  lemma Crc16Rounds(c: word, b: byte)
    ensures Crc16Bits(Mix16(c, b), 0) == Mix16(c, b)
    ensures Crc16Byte(c, b) == Crc16Bits(Mix16(c, b), 8)
  {
    hide Mix16;
  }

  lemma Crc16Round(c: word, i: nat)
    ensures Crc16Bits(c, i + 1) == Crc16Bit(Crc16Bits(c, i))
  {
    hide Crc16Bit;
  }

  // The top bit of the result tells which branch was taken, so a bit step can be undone.
  function Crc16UnBit(r: word): word {
    if r & 0x8000 != 0 then ((r ^ 0xA001) << 1) | 1 else r << 1
  }

  lemma Crc16BitUndone(c: word)
    ensures Crc16UnBit(Crc16Bit(c)) == c
  {
    hide Crc16UnBit;
    if c & 1 != 0 {
      OddRestored(c);
    } else {
      EvenRestored(c);
    }
  }

  lemma OddRestored(c: word)
    requires c & 1 != 0
    ensures Crc16UnBit((c >> 1) ^ 0xA001) == c
  {}

  lemma EvenRestored(c: word)
    requires c & 1 == 0
    ensures Crc16UnBit(c >> 1) == c
  {}

  lemma Crc16UnBitUndone(r: word)
    ensures Crc16Bit(Crc16UnBit(r)) == r
  {
    hide Crc16Bit;
    if r & 0x8000 != 0 {
      OddUndone(r);
    } else {
      EvenUndone(r);
    }
  }

  lemma OddUndone(r: word)
    requires r & 0x8000 != 0
    ensures Crc16Bit(((r ^ 0xA001) << 1) | 1) == r
  {}

  lemma EvenUndone(r: word)
    requires r & 0x8000 == 0
    ensures Crc16Bit(r << 1) == r
  {}

  lemma {:induction false} Crc16BitsInjective(a: word, b: word, n: nat)
    requires Crc16Bits(a, n) == Crc16Bits(b, n)
    ensures a == b
    decreases n
  {
    hide Crc16Bit, Crc16UnBit;
    if n > 0 {
      Crc16BitUndone(Crc16Bits(a, n - 1));
      Crc16BitUndone(Crc16Bits(b, n - 1));
      Crc16BitsInjective(a, b, n - 1);
    }
  }

  lemma {:induction false} Crc16BitsOnto(r: word, n: nat) returns (c: word)
    ensures Crc16Bits(c, n) == r
    decreases n
  {
    hide Crc16Bit, Crc16UnBit;
    if n == 0 {
      c := r;
    } else {
      Crc16UnBitUndone(r);
      c := Crc16BitsOnto(Crc16UnBit(r), n - 1);
    }
  }

  lemma Xor16Cancels(a: word, k: word)
    ensures Xor16(Xor16(a, k), k) == a && Xor16(a, k) == Xor16(k, a)
  {}

  lemma Xor16Zero(a: word, b: word)
    ensures Xor16(a, b) == 0 ==> a == b
    ensures Xor16(a, a) == 0
  {}

  lemma Xor16Injective(a: word, b: word, k: word)
    requires Xor16(a, k) == Xor16(b, k)
    ensures a == b
  {
    hide Xor16;
    Xor16Cancels(a, k);
    Xor16Cancels(b, k);
  }

  lemma Crc16Lossless()
    ensures Lossless(Crc16Byte)
  {
    hide Crc16Bits, Xor16, Widen;
    forall x, y, b | Crc16Byte(x, b) == Crc16Byte(y, b)
      ensures x == y
    {
      Crc16BitsInjective(Mix16(x, b), Mix16(y, b), 8);
      Xor16Injective(x, y, Widen(Bits(b)));
    }
    forall x, a, b | Crc16Byte(x, a) == Crc16Byte(x, b)
      ensures a == b
    {
      Crc16BitsInjective(Mix16(x, a), Mix16(x, b), 8);
      Xor16Cancels(Widen(Bits(a)), x);
      Xor16Cancels(Widen(Bits(b)), x);
      WidenInjective(Bits(a), Bits(b));
    }
  }

  lemma WidenInjective(u: bv8, v: bv8)
    requires Widen(u) == Widen(v)
    ensures u == v
  {
    assert (u as word) as bv8 == u && (v as word) as bv8 == v;
  }

  lemma Crc16DetectsByte(s: bytes, i: nat, b: byte)
    requires i < |s| && b != s[i]
    ensures Crc16(s[i := b]) != Crc16(s)
  {
    Crc16Lossless();
    FoldDetectsByte(Crc16Byte, 0, s, i, b);
  }

  /** Every state is reached: with Crc16Lossless, the update for a fixed byte is a bijection. */
  lemma Crc16ByteOnto(b: byte, r: word) returns (c: word)
    ensures Crc16Byte(c, b) == r
  {
    hide Crc16Bits, Xor16;
    c := Crc16BitsOnto(r, 8);
    Xor16Cancels(c, Bits(b) as word);
    c := Xor16(c, Widen(Bits(b)));
  }

  lemma Crc16BitLinear(a: word, b: word)
    ensures Crc16Bit(Xor16(a, b)) == Xor16(Crc16Bit(a), Crc16Bit(b))
  {
    ShiftXor16(a, b);
    XorMoves16(a >> 1, b >> 1, 0xA001);
  }

  lemma ShiftXor16(a: word, b: word)
    ensures (a ^ b) >> 1 == (a >> 1) ^ (b >> 1)
    ensures (a ^ b) & 1 == (a & 1) ^ (b & 1)
    ensures a & 1 == 0 || a & 1 == 1
    ensures b & 1 == 0 || b & 1 == 1
  {}

  lemma XorMoves16(a: word, b: word, k: word)
    ensures (a ^ k) ^ (b ^ k) == a ^ b
    ensures (a ^ k) ^ b == (a ^ b) ^ k
    ensures a ^ (b ^ k) == (a ^ b) ^ k
  {}

  lemma {:induction false} Crc16BitsLinear(a: word, b: word, n: nat)
    ensures Crc16Bits(Xor16(a, b), n) == Xor16(Crc16Bits(a, n), Crc16Bits(b, n))
    decreases n
  {
    hide Crc16Bit, Xor16;
    if n > 0 {
      Crc16BitsLinear(a, b, n - 1);
      Crc16BitLinear(Crc16Bits(a, n - 1), Crc16Bits(b, n - 1));
    }
  }

  lemma Mix16Linear(c: word, d: word, a: byte, b: byte)
    ensures Mix16(Xor16(c, d), XorByte(a, b)) == Xor16(Mix16(c, a), Mix16(d, b))
  {
    hide Xor16, Xor8, Widen, Bits, XorByte;
    Xor16Regroups(c, d, Bits(a), Bits(b));
  }

  lemma Xor16Regroups(c: word, d: word, u: bv8, v: bv8)
    ensures Xor16(Xor16(c, d), Widen(Xor8(u, v))) == Xor16(Xor16(c, Widen(u)), Xor16(d, Widen(v)))
  {
    hide Xor16, Xor8, Widen;
    WidenXor(u, v);
    Xor16Swaps(c, d, Widen(u), Widen(v));
  }

  lemma WidenXor(u: bv8, v: bv8)
    ensures Widen(Xor8(u, v)) == Xor16(Widen(u), Widen(v))
  {}

  lemma Xor16Swaps(c: word, d: word, x: word, y: word)
    ensures Xor16(Xor16(c, d), Xor16(x, y)) == Xor16(Xor16(c, x), Xor16(d, y))
  {
    hide Xor16;
    Xor16Assoc(c, d, Xor16(x, y));
    Xor16Assoc(d, x, y);
    Xor16Cancels(d, x);
    Xor16Assoc(x, d, y);
    Xor16Assoc(c, x, Xor16(d, y));
  }

  lemma Crc16ByteLinear(c: word, d: word, a: byte, b: byte)
    ensures Crc16Byte(Xor16(c, d), XorByte(a, b)) == Xor16(Crc16Byte(c, a), Crc16Byte(d, b))
  {
    hide Crc16Bits, Xor16, Mix16, XorByte;
    Mix16Linear(c, d, a, b);
    Crc16BitsLinear(Mix16(c, a), Mix16(d, b), 8);
  }

  /** The checksum of an xor is the xor of the checksums. */
  lemma {:induction false} Crc16Linear(c: word, d: word, s: bytes, t: bytes)
    requires |s| == |t|
    ensures Fold(Crc16Byte, Xor16(c, d), XorAll(s, t)) == Xor16(Fold(Crc16Byte, c, s), Fold(Crc16Byte, d, t))
    decreases |s|
  {
    hide Crc16Byte, Xor16, XorByte;
    if s != [] {
      Crc16ByteLinear(c, d, s[0], t[0]);
      Crc16Linear(Crc16Byte(c, s[0]), Crc16Byte(d, t[0]), s[1..], t[1..]);
    }
  }

  /** Appending a checksum field gives checksum zero exactly when the field holds the checksum. */
  lemma Crc16Residue(s: bytes, w: word)
    ensures Crc16(s + PutWord(w)) == 0 <==> w == Crc16(s)
  {
    hide Crc16Byte, Xor16, PutWord, GetWord;
    var c, f := Crc16(s), PutWord(w);
    FoldConcat(Crc16Byte, 0, s, f);
    FoldTwo(Crc16Byte, c, f);
    Crc16TwoBytes(c, f);
    if Crc16Bits(Xor16(c, w), 16) == 0 {
      Crc16BitsOfZero(16);
      Crc16BitsInjective(Xor16(c, w), 0, 16);
      Xor16Zero(c, w);
    } else {
      Crc16BitsOfZero(16);
      Xor16Zero(c, c);
    }
  }

  lemma {:induction false} Crc16BitsOfZero(n: nat)
    ensures Crc16Bits(0, n) == 0
  {
    if n > 0 {
      Crc16BitsOfZero(n - 1);
    }
  }

  // Two bytes are sixteen bit steps of the state xored with the word they hold.
  lemma Crc16TwoBytes(c: word, f: bytes)
    requires |f| == 2
    ensures Crc16Byte(Crc16Byte(c, f[0]), f[1]) == Crc16Bits(Xor16(c, GetWord(f)), 16)
  {
    hide Crc16Bits, Xor16, Widen, High, Join;
    var x, high := Mix16(c, f[0]), High(Bits(f[1]));
    HighByteFalls(Bits(f[1]));
    Crc16BitsLinear(x, high, 8);
    Crc16BitsCompose(Xor16(x, high), 8, 8);
    Xor16Joins(c, Bits(f[0]), Bits(f[1]));
  }

  function High(hi: bv8): word { (hi as word) << 8 }

  lemma Xor16Joins(c: word, lo: bv8, hi: bv8)
    ensures Xor16(Xor16(c, Widen(lo)), High(hi)) == Xor16(c, Join(lo, hi))
  {
    hide Xor16, Widen, High, Join;
    JoinIsXor(lo, hi);
    Xor16Assoc(c, Widen(lo), High(hi));
  }

  lemma JoinIsXor(lo: bv8, hi: bv8)
    ensures Join(lo, hi) == Xor16(Widen(lo), High(hi))
  {}

  lemma Xor16Assoc(a: word, b: word, c: word)
    ensures Xor16(Xor16(a, b), c) == Xor16(a, Xor16(b, c))
  {}

  // Eight bit steps bring the high byte of a word down, if its low byte is zero.
  lemma HighByteFalls(hi: bv8)
    ensures Crc16Bits(High(hi), 8) == Widen(hi)
  {
    hide Crc16Bit, Crc16Bits;
    var h := hi as word;
    ShiftsDown(hi);
    FourBits(h << 8, h << 7, h << 6, h << 5, h << 4);
    FourBits(h << 4, h << 3, h << 2, h << 1, h);
    Crc16BitsCompose(h << 8, 4, 4);
  }

  lemma FourBits(a: word, b: word, c: word, d: word, e: word)
    requires Crc16Bit(a) == b && Crc16Bit(b) == c && Crc16Bit(c) == d && Crc16Bit(d) == e
    ensures Crc16Bits(a, 4) == e
  {
    hide Crc16Bit;
  }

  lemma ShiftsDown(hi: bv8)
    ensures var h := hi as word;
            && Crc16Bit(h << 8) == h << 7 && Crc16Bit(h << 7) == h << 6
            && Crc16Bit(h << 6) == h << 5 && Crc16Bit(h << 5) == h << 4
            && Crc16Bit(h << 4) == h << 3 && Crc16Bit(h << 3) == h << 2
            && Crc16Bit(h << 2) == h << 1 && Crc16Bit(h << 1) == h
  {}

  lemma {:induction false} Crc16BitsCompose(c: word, m: nat, n: nat)
    ensures Crc16Bits(Crc16Bits(c, m), n) == Crc16Bits(c, m + n)
    decreases n
  {
    hide Crc16Bit;
    if n > 0 {
      Crc16BitsCompose(c, m, n - 1);
    }
  }

  // ----- CRC-8/CCITT: most significant bit first, polynomial 0x07 -----

  function Crc8Bit(c: bv8): bv8 {
    if c & 0x80 != 0 then (c << 1) ^ 0x07 else c << 1
  }

  function Crc8Bits(c: bv8, n: nat): bv8
    decreases n
  {
    if n == 0 then c else Crc8Bit(Crc8Bits(c, n - 1))
  }

  function Crc8Byte(c: bv8, b: byte): bv8 {
    Crc8Bits(Xor8(c, Bits(b)), 8)
  }

  function Crc8(s: bytes): byte {
    ByteOf(Fold(Crc8Byte, 0, s))
  }

  method Crc8CCITT(data: bytes) returns (r: byte)
    ensures r == Crc8(data)
  {
    var crc: bv8 := 0;
    hide Fold, Crc8Byte, Crc8Bits, Crc8Bit, Xor8;
    assert data[0..] == data;
    for k := 0 to |data|
      invariant Fold(Crc8Byte, crc, data[k..]) == Fold(Crc8Byte, 0, data)
    {
      ghost var mixed := Xor8(crc, Bits(data[k]));
      FoldTurn(Crc8Byte, crc, data, k);
      Crc8Rounds(crc, data[k]);
      crc := Xor8(crc, Bits(data[k]));
      for i := 0 to 8
        invariant crc == Crc8Bits(mixed, i)
      {
        Crc8Round(mixed, i);
        crc := Shift8(crc);
      }
    }
    FoldEnd(Crc8Byte, crc, data);
    r := ByteOf(crc);
  }

  method Shift8(c: bv8) returns (r: bv8)
    ensures r == Crc8Bit(c)
  {
    if c & 0x80 != 0 {
      r := (c << 1) ^ 0x07;
    } else {
      r := c << 1;
    }
  }

  lemma Crc8Rounds(c: bv8, b: byte)
    ensures Crc8Bits(Xor8(c, Bits(b)), 0) == Xor8(c, Bits(b))
    ensures Crc8Byte(c, b) == Crc8Bits(Xor8(c, Bits(b)), 8)
  {
    hide Xor8;
  }

  lemma Crc8Round(c: bv8, i: nat)
    ensures Crc8Bits(c, i + 1) == Crc8Bit(Crc8Bits(c, i))
  {
    hide Crc8Bit;
  }

  // The low bit of the result tells which branch was taken.
  function Crc8UnBit(r: bv8): bv8 {
    if r & 1 != 0 then ((r ^ 0x07) >> 1) | 0x80 else r >> 1
  }

  lemma Crc8BitUndone(c: bv8)
    ensures Crc8UnBit(Crc8Bit(c)) == c
  {
    hide Crc8UnBit;
    if c & 0x80 != 0 {
      HighRestored(c);
    } else {
      LowRestored(c);
    }
  }

  lemma HighRestored(c: bv8)
    requires c & 0x80 != 0
    ensures Crc8UnBit((c << 1) ^ 0x07) == c
  {}

  lemma LowRestored(c: bv8)
    requires c & 0x80 == 0
    ensures Crc8UnBit(c << 1) == c
  {}

  lemma Crc8UnBitUndone(r: bv8)
    ensures Crc8Bit(Crc8UnBit(r)) == r
  {
    hide Crc8Bit;
    if r & 1 != 0 {
      HighUndone(r);
    } else {
      LowUndone(r);
    }
  }

  lemma HighUndone(r: bv8)
    requires r & 1 != 0
    ensures Crc8Bit(((r ^ 0x07) >> 1) | 0x80) == r
  {}

  lemma LowUndone(r: bv8)
    requires r & 1 == 0
    ensures Crc8Bit(r >> 1) == r
  {}

  lemma {:induction false} Crc8BitsInjective(a: bv8, b: bv8, n: nat)
    requires Crc8Bits(a, n) == Crc8Bits(b, n)
    ensures a == b
    decreases n
  {
    hide Crc8Bit, Crc8UnBit;
    if n > 0 {
      Crc8BitUndone(Crc8Bits(a, n - 1));
      Crc8BitUndone(Crc8Bits(b, n - 1));
      Crc8BitsInjective(a, b, n - 1);
    }
  }

  lemma {:induction false} Crc8BitsOnto(r: bv8, n: nat) returns (c: bv8)
    ensures Crc8Bits(c, n) == r
    decreases n
  {
    hide Crc8Bit, Crc8UnBit;
    if n == 0 {
      c := r;
    } else {
      Crc8UnBitUndone(r);
      c := Crc8BitsOnto(Crc8UnBit(r), n - 1);
    }
  }

  lemma Crc8ByteOnto(b: byte, r: bv8) returns (c: bv8)
    ensures Crc8Byte(c, b) == r
  {
    hide Crc8Bits, Xor8;
    c := Crc8BitsOnto(r, 8);
    Xor8Laws(c, Bits(b));
    c := Xor8(c, Bits(b));
  }

  lemma Crc8Lossless()
    ensures Lossless(Crc8Byte)
  {
    hide Crc8Bits, Xor8;
    forall x, y, b | Crc8Byte(x, b) == Crc8Byte(y, b)
      ensures x == y
    {
      Crc8BitsInjective(Xor8(x, Bits(b)), Xor8(y, Bits(b)), 8);
      Xor8Laws(x, Bits(b));
      Xor8Laws(y, Bits(b));
    }
    forall x, a, b | Crc8Byte(x, a) == Crc8Byte(x, b)
      ensures a == b
    {
      Crc8BitsInjective(Xor8(x, Bits(a)), Xor8(x, Bits(b)), 8);
      Xor8Laws(Bits(a), x);
      Xor8Laws(Bits(b), x);
      Xor8Laws(x, Bits(a));
      Xor8Laws(x, Bits(b));
    }
  }

  lemma Crc8DetectsByte(s: bytes, i: nat, b: byte)
    requires i < |s| && b != s[i]
    ensures Crc8(s[i := b]) != Crc8(s)
  {
    hide Crc8Byte;
    Crc8Lossless();
    FoldDetectsByte(Crc8Byte, 0, s, i, b);
    assert Bits(Crc8(s[i := b])) == Fold(Crc8Byte, 0, s[i := b]);
    assert Bits(Crc8(s)) == Fold(Crc8Byte, 0, s);
  }

  lemma Crc8BitLinear(a: bv8, b: bv8)
    ensures Crc8Bit(Xor8(a, b)) == Xor8(Crc8Bit(a), Crc8Bit(b))
  {
    ShiftXor8(a, b);
    XorMoves8(a << 1, b << 1, 0x07);
  }

  lemma ShiftXor8(a: bv8, b: bv8)
    ensures (a ^ b) << 1 == (a << 1) ^ (b << 1)
    ensures (a ^ b) & 0x80 == (a & 0x80) ^ (b & 0x80)
    ensures a & 0x80 == 0 || a & 0x80 == 0x80
    ensures b & 0x80 == 0 || b & 0x80 == 0x80
  {}

  lemma XorMoves8(a: bv8, b: bv8, k: bv8)
    ensures (a ^ k) ^ (b ^ k) == a ^ b
    ensures (a ^ k) ^ b == (a ^ b) ^ k
    ensures a ^ (b ^ k) == (a ^ b) ^ k
  {}

  lemma {:induction false} Crc8BitsLinear(a: bv8, b: bv8, n: nat)
    ensures Crc8Bits(Xor8(a, b), n) == Xor8(Crc8Bits(a, n), Crc8Bits(b, n))
    decreases n
  {
    hide Crc8Bit, Xor8;
    if n > 0 {
      Crc8BitsLinear(a, b, n - 1);
      Crc8BitLinear(Crc8Bits(a, n - 1), Crc8Bits(b, n - 1));
    }
  }

  lemma Xor8Assoc(a: bv8, b: bv8, c: bv8)
    ensures Xor8(Xor8(a, b), c) == Xor8(a, Xor8(b, c))
  {}

  lemma Xor8Swaps(c: bv8, d: bv8, x: bv8, y: bv8)
    ensures Xor8(Xor8(c, d), Xor8(x, y)) == Xor8(Xor8(c, x), Xor8(d, y))
  {
    hide Xor8;
    Xor8Assoc(c, d, Xor8(x, y));
    Xor8Assoc(d, x, y);
    Xor8Laws(d, x);
    Xor8Assoc(x, d, y);
    Xor8Assoc(c, x, Xor8(d, y));
  }

  lemma Crc8ByteLinear(c: bv8, d: bv8, a: byte, b: byte)
    ensures Crc8Byte(Xor8(c, d), XorByte(a, b)) == Xor8(Crc8Byte(c, a), Crc8Byte(d, b))
  {
    hide Crc8Bits, Xor8, Bits, XorByte;
    Xor8Swaps(c, d, Bits(a), Bits(b));
    Crc8BitsLinear(Xor8(c, Bits(a)), Xor8(d, Bits(b)), 8);
  }

  lemma {:induction false} Crc8Linear(c: bv8, d: bv8, s: bytes, t: bytes)
    requires |s| == |t|
    ensures Fold(Crc8Byte, Xor8(c, d), XorAll(s, t)) == Xor8(Fold(Crc8Byte, c, s), Fold(Crc8Byte, d, t))
    decreases |s|
  {
    hide Crc8Byte, Xor8, XorByte;
    if s != [] {
      Crc8ByteLinear(c, d, s[0], t[0]);
      Crc8Linear(Crc8Byte(c, s[0]), Crc8Byte(d, t[0]), s[1..], t[1..]);
    }
  }

  lemma {:induction false} Crc8BitsOfZero(n: nat)
    ensures Crc8Bits(0, n) == 0
  {
    if n > 0 {
      Crc8BitsOfZero(n - 1);
    }
  }

  lemma Xor8Zero(a: bv8, b: bv8)
    ensures Xor8(a, b) == 0 <==> a == b
  {}

  /** Appending a header check byte gives checksum zero exactly when the byte is the checksum. */
  lemma Crc8Residue(s: bytes, b: byte)
    ensures Crc8(s + [b]) == 0 <==> b == Crc8(s)
  {
    hide Crc8Bits, Xor8, Bits, ByteOf;
    var c := Fold(Crc8Byte, 0, s);
    FoldConcat(Crc8Byte, 0, s, [b]);
    assert Fold(Crc8Byte, c, [b]) == Crc8Byte(c, b) by {
      assert [b][1..] == [];
    }
    Crc8BitsOfZero(8);
    Xor8Zero(c, Bits(b));
    if Crc8Byte(c, b) == 0 {
      Crc8BitsInjective(Xor8(c, Bits(b)), 0, 8);
    }
    SameByte(b, Crc8(s));
    SameByte(0, Crc8(s + [b]));
  }

  lemma SameByte(a: byte, b: byte)
    ensures Bits(a) == Bits(b) ==> a == b
    ensures Bits(0) == 0
  {}

  // ----- Which two checksums these are: their check values for the digits 1 to 9 -----

  const DIGITS: bytes := [0x31, 0x32, 0x33, 0x34, 0x35, 0x36, 0x37, 0x38, 0x39]

  lemma Crc16CheckValue()
    ensures Crc16(DIGITS) == 0xBB3D
  {
    hide Crc16Byte;
    var states: seq<word> := [0, 0xD4C1, 0x4594, 0xBA04, 0x14BA, 0xA455, 0x29E4, 0x9D68, 0x3C9D, 0xBB3D];
    Crc16Constant(0, 0x31, 0x31, 0xD4C1);
    Crc16Constant(0xD4C1, 0x32, 0x32, 0x4594);
    Crc16Constant(0x4594, 0x33, 0x33, 0xBA04);
    Crc16Constant(0xBA04, 0x34, 0x34, 0x14BA);
    Crc16Constant(0x14BA, 0x35, 0x35, 0xA455);
    Crc16Constant(0xA455, 0x36, 0x36, 0x29E4);
    Crc16Constant(0x29E4, 0x37, 0x37, 0x9D68);
    Crc16Constant(0x9D68, 0x38, 0x38, 0x3C9D);
    Crc16Constant(0x3C9D, 0x39, 0x39, 0xBB3D);
    FoldTrace(Crc16Byte, DIGITS, states, 0);
  }

  /** A run of the checksum through given states. */
  lemma {:induction false} FoldTrace<C>(step: (C, byte) -> C, s: bytes, states: seq<C>, k: nat)
    requires |states| == |s| + 1 && k <= |s|
    requires forall i :: 0 <= i < |s| ==> step(states[i], s[i]) == states[i + 1]
    ensures Fold(step, states[k], s[k..]) == states[|s|]
    decreases |s| - k
  {
    if k < |s| {
      assert s[k..][1..] == s[k + 1..];
      FoldTrace(step, s, states, k + 1);
    }
  }

  lemma Crc16Constant(c: word, b: byte, v: bv8, r: word)
    requires v as int == b as int && Crc16Bits(c ^ (v as word), 8) == r
    ensures Crc16Byte(c, b) == r
  {
    hide Crc16Bits;
    SameBits(Bits(b), v);
  }

  lemma Crc8CheckValue()
    ensures Crc8(DIGITS) == 0xF4
  {
    hide Crc8Byte;
    var states: seq<bv8> := [0, 0x97, 0x72, 0xC0, 0xC2, 0xCB, 0xFD, 0x78, 0xC7, 0xF4];
    Crc8Constant(0, 0x31, 0x31, 0x97);
    Crc8Constant(0x97, 0x32, 0x32, 0x72);
    Crc8Constant(0x72, 0x33, 0x33, 0xC0);
    Crc8Constant(0xC0, 0x34, 0x34, 0xC2);
    Crc8Constant(0xC2, 0x35, 0x35, 0xCB);
    Crc8Constant(0xCB, 0x36, 0x36, 0xFD);
    Crc8Constant(0xFD, 0x37, 0x37, 0x78);
    Crc8Constant(0x78, 0x38, 0x38, 0xC7);
    Crc8Constant(0xC7, 0x39, 0x39, 0xF4);
    FoldTrace(Crc8Byte, DIGITS, states, 0);
    assert (0xF4 as bv8) as int == 0xF4;
  }

  lemma Crc8Constant(c: bv8, b: byte, v: bv8, r: bv8)
    requires v as int == b as int && Crc8Bits(c ^ v, 8) == r
    ensures Crc8Byte(c, b) == r
  {
    hide Crc8Bits;
    SameBits(Bits(b), v);
  }
}
