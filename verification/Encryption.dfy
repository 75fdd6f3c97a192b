/** Padding (section 6.3 of RFC 5652) and the two ways packets are encrypted over a block cipher. */
module Encryption {
  import opened Bytes

  const BLOCK: nat := 16
  const MAX_PACKET: nat := 0xFFFF + 20

  // ----- PKCS#7 padding -----

  function Repeat(b: byte, n: nat): (s: bytes)
    ensures |s| == n && forall i :: 0 <= i < n ==> s[i] == b
  {
    seq(n, _ => b)
  }

  function Pad(src: bytes, blockSize: int): Result<bytes> {
    if blockSize < 1 || blockSize > 255 then Err(BadBlockSize)
    else if |src| > MAX_PACKET then Err(PlaintextTooLarge)
    else
      var pad := blockSize - |src| % blockSize;
      Ok(src + Repeat(pad as byte, pad))
  }

  method Pkcs7Pad(src: bytes, blockSize: int) returns (r: Result<bytes>)
    ensures r == Pad(src, blockSize)
  {
    if blockSize < 1 || blockSize > 255 {
      return Err(BadBlockSize);
    }
    if |src| > MAX_PACKET {
      return Err(PlaintextTooLarge);
    }
    var pad := blockSize - |src| % blockSize;
    var out := new byte[|src| + pad](i => if 0 <= i < |src| then src[i] else 0);
    for i := |src| to out.Length
      invariant forall j :: 0 <= j < |src| ==> out[j] == src[j]
      invariant forall j :: |src| <= j < i ==> out[j] == pad as byte
    {
      out[i] := pad as byte;
    }
    assert out[..] == src + Repeat(pad as byte, pad);
    return Ok(out[..]);
  }

  function Unpad(src: bytes, blockSize: int): Result<bytes>
    requires blockSize != 0
  {
    if src == [] || |src| % blockSize != 0 then Err(BadPaddedLength)
    else
      var pad := src[|src| - 1] as int;
      if pad == 0 || pad > blockSize || pad > |src| then Err(BadPadding)
      else if src[|src| - pad..] != Repeat(pad as byte, pad) then Err(BadPadding)
      else Ok(src[..|src| - pad])
  }

  method Pkcs7Unpad(src: bytes, blockSize: int) returns (r: Result<bytes>)
    requires blockSize != 0
    ensures r == Unpad(src, blockSize)
  {
    if |src| == 0 || |src| % blockSize != 0 {
      return Err(BadPaddedLength);
    }
    var pad := src[|src| - 1] as int;
    if pad == 0 || pad > blockSize || pad > |src| {
      return Err(BadPadding);
    }
    var tail := src[|src| - pad..];
    for i := 0 to |tail|
      invariant forall j :: 0 <= j < i ==> tail[j] as int == pad
    {
      if tail[i] as int != pad {
        assert tail != Repeat(pad as byte, pad);
        return Err(BadPadding);
      }
    }
    assert tail == Repeat(pad as byte, pad);
    return Ok(src[..|src| - pad]);
  }

  lemma {:induction false} MulAtLeast(d: int, k: nat)
    requires d >= 1
    ensures d * k >= k
    decreases d
  {
    if d > 1 {
      MulAtLeast(d - 1, k);
      assert d * k == (d - 1) * k + k;
    }
  }

  lemma DivisionIsUnique(x: nat, k: nat, q: int, r: nat)
    requires k > 0 && r < k && x == q * k + r
    ensures x / k == q && x % k == r
  {
    var a, b := x / k, x % k;
    assert x == a * k + b;
    assert (a - q) * k == a * k - q * k == -((q - a) * k);
    if a > q {
      MulAtLeast(a - q, k);
    } else if q > a {
      MulAtLeast(q - a, k);
    }
  }

  // The length is completed to the next multiple of the block size.
  lemma PadLength(n: nat, k: nat)
    requires k > 0
    ensures var pad := k - n % k; 1 <= pad <= k && (n + pad) % k == 0
  {
    assert n == (n / k) * k + n % k;
    assert (n / k + 1) * k == (n / k) * k + k;
    DivisionIsUnique(n + (k - n % k), k, n / k + 1, 0);
  }

  /** Padding then unpadding gives the input back, whenever padding succeeds. */
  lemma UnpadPad(x: bytes, blockSize: int)
    requires Pad(x, blockSize).Ok?
    ensures Unpad(Pad(x, blockSize).value, blockSize) == Ok(x)
  {
    var s, pad := Pad(x, blockSize).value, blockSize - |x| % blockSize;
    PadLength(|x|, blockSize);
    assert s[|s| - 1] == pad as byte;
    assert s[|s| - pad..] == Repeat(pad as byte, pad) && s[..|s| - pad] == x;
  }

  /** Whatever unpads is the padding of its result, exactly when the result could be padded at all. */
  lemma PadUnpad(s: bytes, blockSize: int)
    requires blockSize != 0 && Unpad(s, blockSize).Ok?
    ensures var x := Unpad(s, blockSize).value;
            Pad(x, blockSize) == Ok(s) <==> blockSize <= 255 && |x| <= MAX_PACKET
  {
    var x, pad := Unpad(s, blockSize).value, s[|s| - 1] as int;
    PadIsUnique(|x|, pad, blockSize);
    assert s == x + Repeat(pad as byte, pad);
  }

  lemma PadIsUnique(n: nat, pad: nat, k: nat)
    requires 1 <= pad <= k && (n + pad) % k == 0
    ensures pad == k - n % k
  {
    var a := (n + pad) / k;
    assert n + pad == a * k && (a - 1) * k == a * k - k;
    DivisionIsUnique(n, k, a - 1, k - pad);
  }

  // ----- Encryption strategies -----

  /**
   * CBC with one key and initial vector. All that matters here: on block-aligned strings both
   * directions keep the length, and decryption undoes encryption.
   */
  datatype CipherPair = CipherPair(enc: bytes -> bytes, dec: bytes -> bytes)

  predicate Aligned(s: bytes) {
    |s| % BLOCK == 0
  }

  ghost predicate IsCipher(c: CipherPair) {
    && (forall s :: Aligned(s) ==> |c.enc(s)| == |s| && c.dec(c.enc(s)) == s)
    && (forall s :: Aligned(s) ==> |c.dec(s)| == |s|)
  }

  type Cipher = c: CipherPair | IsCipher(c) witness CipherPair(s => s, s => s)

  /** Type 1 pads with zeros and relies on a length known elsewhere; type 7 uses PKCS#7. */
  datatype Strategy = Type1(cipher: Cipher) | Type7(cipher: Cipher)

  function RoundUp(n: nat): (m: nat)
    ensures n <= m < n + BLOCK && m % BLOCK == 0
  {
    (n + BLOCK - 1) / BLOCK * BLOCK
  }

  function ZeroPad(s: bytes): (r: bytes)
    ensures |r| == RoundUp(|s|) && s <= r
  {
    s + Repeat(0, RoundUp(|s|) - |s|)
  }

  function Encrypt(e: Strategy, plaintext: bytes): Result<bytes> {
    match e
    case Type1(c) =>
      if |plaintext| > MAX_PACKET then Err(PlaintextTooLarge) else Ok(c.enc(ZeroPad(plaintext)))
    case Type7(c) =>
      match Pad(plaintext, BLOCK)
      case Err(error) => Err(error)
      case Ok(padded) => Ok(c.enc(padded))
  }

  function Decrypt(e: Strategy, ciphertext: bytes): Result<bytes> {
    match e
    case Type1(c) =>
      if !Aligned(ciphertext) then Err(NotBlockAligned) else Ok(c.dec(ciphertext))
    case Type7(c) =>
      var aligned := |ciphertext| - |ciphertext| % BLOCK;
      if aligned == 0 then Ok(ciphertext)
      else
        var out := c.dec(ciphertext[..aligned]);
        match Unpad(out, BLOCK)
        case Ok(unpadded) => Ok(unpadded)
        case Err(_) => Ok(out)
  }

  function Type7Len(n: nat): nat {
    n + (BLOCK - n % BLOCK)
  }

  /** Type 7 hides its padding: decryption gives the plaintext back. */
  lemma Type7Inverts(c: Cipher, plaintext: bytes)
    requires |plaintext| <= MAX_PACKET
    ensures Encrypt(Type7(c), plaintext).Ok?
    ensures |Encrypt(Type7(c), plaintext).value| == Type7Len(|plaintext|)
    ensures Decrypt(Type7(c), Encrypt(Type7(c), plaintext).value) == Ok(plaintext)
  {
    var padded := Pad(plaintext, BLOCK).value;
    PadLength(|plaintext|, BLOCK);
    UnpadPad(plaintext, BLOCK);
    assert Aligned(padded);
    var s := c.enc(padded);
    assert s[..|s|] == s;
  }

  /**
   * Type 7 decryption never fails: bytes after the last whole block are ignored, less than a block is
   * returned as it is, and so is a plaintext that was not padded.
   */
  lemma Type7Lenient(c: Cipher, plaintext: bytes, tail: bytes)
    requires |tail| < 16
    ensures |plaintext| <= MAX_PACKET ==>
              Encrypt(Type7(c), plaintext).Ok?
              && Decrypt(Type7(c), Encrypt(Type7(c), plaintext).value + tail) == Ok(plaintext)
    ensures Decrypt(Type7(c), tail) == Ok(tail)
    ensures plaintext != [] && |plaintext| % 16 == 0 && Unpad(plaintext, 16).Err? ==>
              Decrypt(Type7(c), c.enc(plaintext) + tail) == Ok(plaintext)
  {
    hide Encrypt, Decrypt, Pad, Unpad;
    if |plaintext| <= MAX_PACKET {
      PaddedWhole(c, plaintext);
      UnpadPad(plaintext, BLOCK);
      BlocksDecrypted(c, Pad(plaintext, BLOCK).value, tail);
    }
    LessThanABlock(c, tail);
    if plaintext != [] && |plaintext| % 16 == 0 {
      BlocksDecrypted(c, plaintext, tail);
    }
  }

  lemma PaddedWhole(c: Cipher, plaintext: bytes)
    requires |plaintext| <= MAX_PACKET
    ensures Pad(plaintext, BLOCK).Ok? && Pad(plaintext, BLOCK).value != [] && |Pad(plaintext, BLOCK).value| % 16 == 0
    ensures Encrypt(Type7(c), plaintext) == Ok(c.enc(Pad(plaintext, BLOCK).value))
  {
    PadLength(|plaintext|, BLOCK);
  }

  lemma LessThanABlock(c: Cipher, tail: bytes)
    requires |tail| < 16
    ensures Decrypt(Type7(c), tail) == Ok(tail)
  {
    hide Unpad;
  }

  // Whole blocks are decrypted and unpadded if they can be, whatever partial block follows.
  lemma BlocksDecrypted(c: Cipher, plaintext: bytes, tail: bytes)
    requires plaintext != [] && |plaintext| % 16 == 0 && |tail| < 16
    ensures Decrypt(Type7(c), c.enc(plaintext) + tail) ==
            if Unpad(plaintext, BLOCK).Ok? then Unpad(plaintext, BLOCK) else Ok(plaintext)
  {
    hide Unpad;
    assert Aligned(plaintext);
    AlignedPart(c.enc(plaintext), tail);
  }

  lemma AlignedPart(s: bytes, tail: bytes)
    requires |s| % 16 == 0 && |tail| < 16
    ensures var aligned := |s + tail| - |s + tail| % 16; aligned == |s| && (s + tail)[..aligned] == s
  {}

  lemma Type7NeverFails(c: Cipher, ciphertext: bytes)
    ensures Decrypt(Type7(c), ciphertext).Ok?
  {}

  /** Type 1 refuses exactly what is too long or not made of whole blocks. */
  lemma Type1Refuses(c: Cipher, s: bytes)
    ensures Encrypt(Type1(c), s) == Err(PlaintextTooLarge) <==> |s| > 65555
    ensures Encrypt(Type1(c), s).Ok? <==> |s| <= 65555
    ensures Decrypt(Type1(c), s) == Err(NotBlockAligned) <==> |s| % 16 != 0
    ensures Decrypt(Type1(c), s).Ok? <==> |s| % 16 == 0
  {}

  /** When padding and unpadding refuse, and with which error. */
  lemma PaddingRefuses(s: bytes, blockSize: int)
    ensures Pad(s, blockSize) == Err(BadBlockSize) <==> blockSize < 1 || blockSize > 255
    ensures Pad(s, blockSize) == Err(PlaintextTooLarge) <==> 1 <= blockSize <= 255 && |s| > 65555
    ensures Pad(s, blockSize).Ok? <==> 1 <= blockSize <= 255 && |s| <= 65555
    ensures blockSize > 0 ==>
              && (Unpad(s, blockSize) == Err(BadPaddedLength) <==> s == [] || |s| % blockSize != 0)
              && (Unpad(s, blockSize).Err? ==> Unpad(s, blockSize).error in {BadPaddedLength, BadPadding})
              && (Unpad(s, blockSize).Ok? <==>
                    s != [] && |s| % blockSize == 0
                    && exists n: nat :: 1 <= n <= |s| && n <= blockSize && EndsPadded(s, n))
  {
    if s != [] && 1 <= s[|s| - 1] as int <= |s| {
      TailPadded(s, s[|s| - 1] as int);
    }
  }

  lemma TailPadded(s: bytes, n: nat)
    requires 1 <= n <= |s| && n < 256
    ensures s[|s| - n..] == Repeat(n as byte, n) <==> EndsPadded(s, n)
  {
    var tail := s[|s| - n..];
    assert forall i :: |s| - n <= i < |s| ==> s[i] == tail[i - (|s| - n)];
  }

  /** The last n bytes all say n. */
  predicate EndsPadded(s: bytes, n: nat)
    requires n <= |s|
  {
    forall i :: |s| - n <= i < |s| ==> s[i] as int == n
  }

  /** Type 1 gives the plaintext back followed by the zeros that filled its last block. */
  lemma Type1Inverts(c: Cipher, plaintext: bytes)
    requires |plaintext| <= MAX_PACKET
    ensures Encrypt(Type1(c), plaintext).Ok?
    ensures |Encrypt(Type1(c), plaintext).value| == RoundUp(|plaintext|)
    ensures Decrypt(Type1(c), Encrypt(Type1(c), plaintext).value) == Ok(ZeroPad(plaintext))
    ensures ZeroPad(plaintext)[..|plaintext|] == plaintext
    ensures forall i :: |plaintext| <= i < |ZeroPad(plaintext)| ==> ZeroPad(plaintext)[i] == 0
  {
    assert Aligned(ZeroPad(plaintext));
  }
}
