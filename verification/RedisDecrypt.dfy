/**
 * Password chaining for Redis (pkg/redisdecrypt): cipher block chaining with a zero initialisation vector
 * (section 6.2 of NIST SP 800-38A) over 16-byte blocks, and a trailer byte that tells how much of the last block
 * is in use. The block cipher is any pair of mutually inverse functions on blocks.
 */
module RedisDecrypt {

  type Bytes = seq<bv8>

  const BLOCK_SIZE := 16

  datatype Result = Ok(plain: Bytes) | TooShort | BadTrailer | BadLength

  ghost predicate IsCipher(enc: Bytes -> Bytes, dec: Bytes -> Bytes) {
    && (forall b {:trigger enc(b)} :: |b| == 16 ==> |enc(b)| == 16 && dec(enc(b)) == b)
    && (forall b {:trigger dec(b)} :: |b| == 16 ==> |dec(b)| == 16 && enc(dec(b)) == b)
  }

  // ---------- specification ----------

  function Xor(a: Bytes, b: Bytes): (r: Bytes)
    requires |a| == |b|
    ensures |r| == |a|
  {
    seq(|a|, i requires 0 <= i < |a| => a[i] ^ b[i])
  }

  function Zeros(): (r: Bytes)
    ensures |r| == 16
  {
    seq(16, _ => 0)
  }

  function Blocks(n: nat): nat {
    (n + 15) / 16
  }

  /** Plaintext block `j`, filled up with zeros. */
  function Padded(data: Bytes, j: nat): (r: Bytes)
    ensures |r| == 16
  {
    seq(16, i requires 0 <= i < 16 => if 16 * j + i < |data| then data[16 * j + i] else 0)
  }

  /** Cipher block `j`: the encryption of plaintext block `j` combined with the cipher block before it. */
  function Chained(enc: Bytes -> Bytes, data: Bytes, j: nat): Bytes {
    var before := if j == 0 then Zeros() else Chained(enc, data, j - 1);
    if |before| == 16 then enc(Xor(Padded(data, j), before)) else []
  }

  /** The first `n` blocks of `f`, one after the other. */
  function Cat(f: nat -> Bytes, n: nat): Bytes {
    if n == 0 then [] else Cat(f, n - 1) + f(n - 1)
  }

  function ChainOf(enc: Bytes -> Bytes, data: Bytes): nat -> Bytes {
    (j: nat) => Chained(enc, data, j)
  }

  /** The byte that follows the blocks when the last one is not full. */
  function Trailer(size: nat): Bytes {
    if size % 16 == 0 then [] else [(size % 16) as bv8]
  }

  function Encrypted(enc: Bytes -> Bytes, data: Bytes): Bytes {
    Cat(ChainOf(enc, data), Blocks(|data|)) + Trailer(|data|)
  }

  function BlockAt(c: Bytes, j: nat): (r: Bytes)
    requires 16 * j + 16 <= |c|
    ensures |r| == 16
  {
    c[16 * j..16 * j + 16]
  }

  /** The cipher block before block `j`. */
  function Previous(c: Bytes, j: nat): (r: Bytes)
    requires 16 * j <= |c|
    ensures |r| == 16
  {
    if j == 0 then Zeros() else BlockAt(c, j - 1)
  }

  /** Plaintext block `j` recovered from the ciphertext. */
  function Recovered(dec: Bytes -> Bytes, c: Bytes, j: nat): Bytes {
    if 16 * j + 16 <= |c| && |dec(BlockAt(c, j))| == 16
    then Xor(dec(BlockAt(c, j)), Previous(c, j))
    else []
  }

  function RecoveryOf(dec: Bytes -> Bytes, c: Bytes): nat -> Bytes {
    (j: nat) => Recovered(dec, c, j)
  }

  /** Everything recovered from the whole blocks of the ciphertext, before trimming. */
  function FullPlain(dec: Bytes -> Bytes, c: Bytes): Bytes {
    Cat(RecoveryOf(dec, c), |c| / 16)
  }

  function Decrypted(dec: Bytes -> Bytes, c: Bytes): Result {
    if |c| < 16 then TooShort
    else if |c| % 16 == 0 then Ok(FullPlain(dec, c))
    else if |c| % 16 != 1 then BadLength
    else
      var pad := c[|c| - 1] as int;
      if pad <= 0 || pad >= 16 then BadTrailer else Ok(DropLast(FullPlain(dec, c), 16 - pad))
  }

  function DropLast(s: Bytes, n: nat): Bytes {
    if n <= |s| then s[..|s| - n] else []
  }

  // ---------- chaining is undone ----------

  lemma {:induction false} XorTwice(a: Bytes, b: Bytes)
    requires |a| == |b|
    ensures Xor(Xor(a, b), b) == a
  {
    forall i | 0 <= i < |a|
      ensures Xor(Xor(a, b), b)[i] == a[i]
    {
      Cancel(a[i], b[i]);
    }
  }

  lemma {:induction false} Cancel(x: bv8, y: bv8)
    ensures (x ^ y) ^ y == x
  {
  }

  lemma {:induction false} ChainedLength(enc: Bytes -> Bytes, dec: Bytes -> Bytes, data: Bytes, j: nat)
    requires IsCipher(enc, dec)
    ensures |Chained(enc, data, j)| == 16
  {
    if j > 0 {
      ChainedLength(enc, dec, data, j - 1);
    }
  }

  ghost predicate Whole(f: nat -> Bytes, n: nat) {
    forall j :: 0 <= j < n ==> |f(j)| == 16
  }

  lemma {:induction false} CatLength(f: nat -> Bytes, n: nat)
    requires Whole(f, n)
    ensures |Cat(f, n)| == 16 * n
  {
    if n > 0 {
      CatLength(f, n - 1);
    }
  }

  /** Block `j` stands at 16 times its number. */
  lemma {:induction false} CatAt(f: nat -> Bytes, n: nat, j: nat)
    requires Whole(f, n) && j < n
    ensures |Cat(f, n)| == 16 * n && Cat(f, n)[16 * j..16 * j + 16] == f(j)
  {
    CatLength(f, n);
    CatLength(f, n - 1);
    if j < n - 1 {
      CatAt(f, n - 1, j);
      SliceOfFront(Cat(f, n - 1), f(n - 1), 16 * j);
    }
  }

  lemma {:induction false} SliceOfFront(a: Bytes, b: Bytes, x: nat)
    requires x + 16 <= |a|
    ensures (a + b)[x..x + 16] == a[x..x + 16]
  {
  }

  lemma {:induction false} CatSame(f: nat -> Bytes, g: nat -> Bytes, n: nat)
    requires forall j :: 0 <= j < n ==> f(j) == g(j)
    ensures Cat(f, n) == Cat(g, n)
  {
    if n > 0 {
      CatSame(f, g, n - 1);
    }
  }

  lemma {:induction false} ChainWhole(enc: Bytes -> Bytes, dec: Bytes -> Bytes, data: Bytes, n: nat)
    requires IsCipher(enc, dec)
    ensures Whole(ChainOf(enc, data), n)
  {
    forall j | 0 <= j < n
      ensures |ChainOf(enc, data)(j)| == 16
    {
      ChainedLength(enc, dec, data, j);
    }
  }

  function PaddingOf(data: Bytes): nat -> Bytes {
    (j: nat) => Padded(data, j)
  }

  lemma {:induction false} PaddedBytes(data: Bytes, n: nat)
    ensures |Cat(PaddingOf(data), n)| == 16 * n
    ensures forall i :: 0 <= i < 16 * n ==> Cat(PaddingOf(data), n)[i] == if i < |data| then data[i] else 0
  {
    if n > 0 {
      PaddedBytes(data, n - 1);
    }
  }

  /** In the ciphertext, block `j` is cipher block `j`. */
  lemma {:induction false} BlockOfChain(enc: Bytes -> Bytes, dec: Bytes -> Bytes, data: Bytes, j: nat)
    requires IsCipher(enc, dec) && j < Blocks(|data|)
    ensures |Encrypted(enc, data)| >= 16 * j + 16 && BlockAt(Encrypted(enc, data), j) == Chained(enc, data, j)
  {
    var n := Blocks(|data|);
    ChainWhole(enc, dec, data, n);
    CatAt(ChainOf(enc, data), n, j);
    SliceOfFront(Cat(ChainOf(enc, data), n), Trailer(|data|), 16 * j);
  }

  lemma {:induction false} DecryptsChained(enc: Bytes -> Bytes, dec: Bytes -> Bytes, data: Bytes, j: nat)
    requires IsCipher(enc, dec)
    ensures var before := if j == 0 then Zeros() else Chained(enc, data, j - 1);
            |before| == 16 && dec(Chained(enc, data, j)) == Xor(Padded(data, j), before)
  {
    if j > 0 {
      ChainedLength(enc, dec, data, j - 1);
    }
    var before := if j == 0 then Zeros() else Chained(enc, data, j - 1);
    assert dec(enc(Xor(Padded(data, j), before))) == Xor(Padded(data, j), before);
  }

  lemma {:induction false} RecoversPadded(enc: Bytes -> Bytes, dec: Bytes -> Bytes, data: Bytes, j: nat)
    requires IsCipher(enc, dec) && j < Blocks(|data|)
    ensures Recovered(dec, Encrypted(enc, data), j) == Padded(data, j)
  {
    BlockOfChain(enc, dec, data, j);
    if j > 0 {
      BlockOfChain(enc, dec, data, j - 1);
    }
    DecryptsChained(enc, dec, data, j);
    XorTwice(Padded(data, j), if j == 0 then Zeros() else Chained(enc, data, j - 1));
  }

  lemma {:induction false} EncryptedSize(enc: Bytes -> Bytes, dec: Bytes -> Bytes, data: Bytes)
    requires IsCipher(enc, dec)
    ensures |Encrypted(enc, data)| == 16 * Blocks(|data|) + (if |data| % 16 == 0 then 0 else 1)
    ensures |Encrypted(enc, data)| / 16 == Blocks(|data|)
  {
    ChainWhole(enc, dec, data, Blocks(|data|));
    CatLength(ChainOf(enc, data), Blocks(|data|));
  }

  lemma {:induction false} RecoversAll(enc: Bytes -> Bytes, dec: Bytes -> Bytes, data: Bytes)
    requires IsCipher(enc, dec)
    ensures FullPlain(dec, Encrypted(enc, data)) == Cat(PaddingOf(data), Blocks(|data|))
  {
    var c, n := Encrypted(enc, data), Blocks(|data|);
    EncryptedSize(enc, dec, data);
    forall j | 0 <= j < n
      ensures RecoveryOf(dec, c)(j) == PaddingOf(data)(j)
    {
      RecoversPadded(enc, dec, data, j);
    }
    CatSame(RecoveryOf(dec, c), PaddingOf(data), n);
  }

  /** Every non-empty password comes back, and only the empty one does not: its ciphertext is refused. */
  lemma {:induction false} RoundTrip(enc: Bytes -> Bytes, dec: Bytes -> Bytes, data: Bytes)
    requires IsCipher(enc, dec)
    ensures Decrypted(dec, Encrypted(enc, data)) == if data == [] then TooShort else Ok(data)
  {
    EncryptedSize(enc, dec, data);
    if data != [] {
      RecoversAll(enc, dec, data);
      BlockCount(|data|);
      PaddingCut(data, Blocks(|data|));
      if |data| % 16 != 0 {
        TrailerValue(|data| % 16);
        LastByte(Cat(ChainOf(enc, data), Blocks(|data|)), |data|);
      }
    }
  }

  lemma {:induction false} LastByte(body: Bytes, size: nat)
    requires size % 16 != 0
    ensures var c := body + Trailer(size); |c| == |body| + 1 && c[|c| - 1] == (size % 16) as bv8
  {
  }

  /** Cutting the padding off again. */
  lemma {:induction false} PaddingCut(data: Bytes, n: nat)
    requires |data| <= 16 * n
    ensures DropLast(Cat(PaddingOf(data), n), 16 * n - |data|) == data
  {
    PaddedBytes(data, n);
  }

  lemma {:induction false} BlockCount(n: nat)
    requires n > 0
    ensures Blocks(n) >= 1 && 16 * Blocks(n) == if n % 16 == 0 then n else n + (16 - n % 16)
  {
  }

  lemma {:induction false} TrailerValue(r: nat)
    requires r < 16
    ensures (r as bv8) as int == r
  {
  }

  // ---------- the converse ----------

  /** The bytes trimmed from the last block are zero. */
  ghost predicate TrimmedTailIsZero(dec: Bytes -> Bytes, c: Bytes)
    requires Decrypted(dec, c).Ok?
  {
    forall i :: |Decrypted(dec, c).plain| <= i < |FullPlain(dec, c)| ==> FullPlain(dec, c)[i] == 0
  }

  lemma {:induction false} RecoveryWhole(enc: Bytes -> Bytes, dec: Bytes -> Bytes, c: Bytes, n: nat)
    requires IsCipher(enc, dec) && 16 * n <= |c|
    ensures Whole(RecoveryOf(dec, c), n)
  {
  }

  lemma {:induction false} BlockRecovered(enc: Bytes -> Bytes, dec: Bytes -> Bytes, c: Bytes, p: Bytes, n: nat, j: nat)
    requires IsCipher(enc, dec) && j < n && 16 * n <= |c|
    requires Cat(PaddingOf(p), n) == Cat(RecoveryOf(dec, c), n)
    ensures Padded(p, j) == Xor(dec(BlockAt(c, j)), Previous(c, j))
  {
    RecoveryWhole(enc, dec, c, n);
    CatAt(RecoveryOf(dec, c), n, j);
    CatAt(PaddingOf(p), n, j);
  }

  /** If the plaintext, zero-filled, is what the blocks recover, chaining it again gives the same blocks. */
  lemma {:induction false} ChainsBack(enc: Bytes -> Bytes, dec: Bytes -> Bytes, c: Bytes, p: Bytes, n: nat, j: nat)
    requires IsCipher(enc, dec) && j < n && 16 * n <= |c|
    requires Cat(PaddingOf(p), n) == Cat(RecoveryOf(dec, c), n)
    ensures Chained(enc, p, j) == BlockAt(c, j)
  {
    BlockRecovered(enc, dec, c, p, n, j);
    if j > 0 {
      ChainsBack(enc, dec, c, p, n, j - 1);
    }
    XorTwice(dec(BlockAt(c, j)), Previous(c, j));
    assert enc(dec(BlockAt(c, j))) == BlockAt(c, j);
  }

  function BlocksOf(c: Bytes): nat -> Bytes {
    (j: nat) => if 16 * j + 16 <= |c| then BlockAt(c, j) else []
  }

  lemma {:induction false} CatBlocks(c: Bytes, n: nat)
    requires 16 * n <= |c|
    ensures Cat(BlocksOf(c), n) == c[..16 * n]
  {
    if n > 0 {
      CatBlocks(c, n - 1);
      assert c[..16 * n] == c[..16 * (n - 1)] + c[16 * (n - 1)..16 * n];
    }
  }

  lemma {:induction false} ChainsAllBack(enc: Bytes -> Bytes, dec: Bytes -> Bytes, c: Bytes, p: Bytes, n: nat)
    requires IsCipher(enc, dec) && 16 * n <= |c|
    requires Cat(PaddingOf(p), n) == Cat(RecoveryOf(dec, c), n)
    ensures Cat(ChainOf(enc, p), n) == c[..16 * n]
  {
    forall j | 0 <= j < n
      ensures ChainOf(enc, p)(j) == BlocksOf(c)(j)
    {
      ChainsBack(enc, dec, c, p, n, j);
    }
    CatSame(ChainOf(enc, p), BlocksOf(c), n);
    CatBlocks(c, n);
  }

  /** An accepted ciphertext is reproduced exactly when the bytes trimmed from its last block were zero. */
  lemma {:induction false} ConverseIff(enc: Bytes -> Bytes, dec: Bytes -> Bytes, c: Bytes)
    requires IsCipher(enc, dec) && Decrypted(dec, c).Ok?
    ensures Encrypted(enc, Decrypted(dec, c).plain) == c <==> TrimmedTailIsZero(dec, c)
    ensures |c| % 16 == 0 ==> TrimmedTailIsZero(dec, c)
  {
    var n, p := |c| / 16, Decrypted(dec, c).plain;
    AcceptedSize(enc, dec, c);
    PaddedBytes(p, n);
    ZeroTailIsPadding(dec, c, p);
    if Cat(PaddingOf(p), n) == FullPlain(dec, c) {
      ChainsAllBack(enc, dec, c, p, n);
    }
    if Encrypted(enc, p) == c {
      RecoversAll(enc, dec, p);
    }
  }

  lemma {:induction false} ZeroTailIsPadding(dec: Bytes -> Bytes, c: Bytes, p: Bytes)
    requires Decrypted(dec, c) == Ok(p) && |FullPlain(dec, c)| == 16 * (|c| / 16)
    ensures Cat(PaddingOf(p), |c| / 16) == FullPlain(dec, c) <==> TrimmedTailIsZero(dec, c)
  {
    PaddedBytes(p, |c| / 16);
    assert p <= FullPlain(dec, c);
  }

  /** Sizes of an accepted ciphertext and its plaintext, and the trailer that encrypting again would write. */
  lemma {:induction false} AcceptedSize(enc: Bytes -> Bytes, dec: Bytes -> Bytes, c: Bytes)
    requires IsCipher(enc, dec) && Decrypted(dec, c).Ok?
    ensures |FullPlain(dec, c)| == 16 * (|c| / 16)
    ensures Blocks(|Decrypted(dec, c).plain|) == |c| / 16
    ensures c == c[..16 * (|c| / 16)] + Trailer(|Decrypted(dec, c).plain|)
  {
    var n := |c| / 16;
    RecoveryWhole(enc, dec, c, n);
    CatLength(RecoveryOf(dec, c), n);
    if |c| % 16 == 1 {
      ShortAccepted(dec, c);
    } else {
      assert c[..16 * n] == c;
    }
  }

  lemma {:induction false} ShortAccepted(dec: Bytes -> Bytes, c: Bytes)
    requires |c| % 16 == 1 && Decrypted(dec, c).Ok? && |FullPlain(dec, c)| == 16 * (|c| / 16)
    ensures Blocks(|Decrypted(dec, c).plain|) == |c| / 16
    ensures c == c[..16 * (|c| / 16)] + Trailer(|Decrypted(dec, c).plain|)
  {
    var n, b := |c| / 16, c[|c| - 1];
    TrailerBack(b);
    var pad := b as int;
    ShortSize(n, pad);
    LastApart(c);
    var size := |Decrypted(dec, c).plain|;
    assert size == 16 * n - (16 - pad);
    assert Trailer(size) == [b];
  }

  lemma {:induction false} LastApart(c: Bytes)
    requires |c| % 16 == 1
    ensures 16 * (|c| / 16) == |c| - 1 && c == c[..|c| - 1] + [c[|c| - 1]]
  {
  }

  lemma {:induction false} ShortSize(n: nat, pad: nat)
    requires n > 0 && 0 < pad < 16
    ensures (16 * n - (16 - pad)) % 16 == pad && Blocks(16 * n - (16 - pad)) == n
  {
  }

  lemma {:induction false} TrailerBack(b: bv8)
    ensures (b as int) as bv8 == b
  {
  }

  // ---------- the bytes in plain terms ----------

  /** The sizes: whole blocks, and one byte more when the last one is not full, which then says how much of it is used. */
  lemma {:induction false} EncryptedBytes(enc: Bytes -> Bytes, dec: Bytes -> Bytes, data: Bytes)
    requires IsCipher(enc, dec)
    ensures var c, rem := Encrypted(enc, data), |data| % 16;
            && (rem == 0 ==> |c| == |data|)
            && (rem != 0 ==> |c| == |data| + (16 - rem) + 1 && c[|c| - 1] as int == rem)
  {
    EncryptedSize(enc, dec, data);
    if |data| % 16 != 0 {
      TrailerValue(|data| % 16);
      LastByteOf(Cat(ChainOf(enc, data), Blocks(|data|)), Trailer(|data|));
    }
  }

  lemma {:induction false} LastByteOf(front: Bytes, back: Bytes)
    requires |back| == 1
    ensures (front + back)[|front + back| - 1] == back[0]
  {
  }

  /** The first block is the encryption of the first 16 bytes, filled up with zeros when there are fewer: a zero vector. */
  lemma {:induction false} FirstBlock(enc: Bytes -> Bytes, dec: Bytes -> Bytes, data: Bytes, first: Bytes)
    requires IsCipher(enc, dec) && data != [] && |first| == 16
    requires forall i :: 0 <= i < 16 ==> first[i] == if i < |data| then data[i] else 0
    ensures |Encrypted(enc, data)| >= 16 && Encrypted(enc, data)[..16] == enc(first)
  {
    BlockOfChain(enc, dec, data, 0);
    FirstInput(data, first);
    assert Encrypted(enc, data)[..16] == BlockAt(Encrypted(enc, data), 0);
  }

  lemma {:induction false} FirstInput(data: Bytes, first: Bytes)
    requires |first| == 16 && forall i :: 0 <= i < 16 ==> first[i] == if i < |data| then data[i] else 0
    ensures Xor(Padded(data, 0), Zeros()) == first
  {
    forall i | 0 <= i < 16
      ensures Xor(Padded(data, 0), Zeros())[i] == first[i]
    {
      ZeroRight(first[i]);
    }
  }

  lemma {:induction false} ZeroRight(x: bv8)
    ensures x ^ 0 == x
  {
  }

  /** Every further block is the encryption of the next bytes, filled up with zeros, combined with the cipher block before it. */
  lemma {:induction false} NextBlock(enc: Bytes -> Bytes, dec: Bytes -> Bytes, data: Bytes, j: nat, input: Bytes)
    requires IsCipher(enc, dec) && j > 0 && 16 * j < |data| && |input| == 16 && 16 * j <= |Encrypted(enc, data)|
    requires forall i :: 0 <= i < 16 ==>
               input[i] == (if 16 * j + i < |data| then data[16 * j + i] else 0) ^ Encrypted(enc, data)[16 * j - 16 + i]
    ensures |Encrypted(enc, data)| >= 16 * j + 16 && Encrypted(enc, data)[16 * j..16 * j + 16] == enc(input)
  {
    BlockOfChain(enc, dec, data, j);
    BlockOfChain(enc, dec, data, j - 1);
    ChainedLength(enc, dec, data, j - 1);
    NextInput(data, j, Chained(enc, data, j - 1), input);
  }

  lemma {:induction false} NextInput(data: Bytes, j: nat, before: Bytes, input: Bytes)
    requires |before| == 16 == |input|
    requires forall i :: 0 <= i < 16 ==> input[i] == (if 16 * j + i < |data| then data[16 * j + i] else 0) ^ before[i]
    ensures Xor(Padded(data, j), before) == input
  {
  }

  /** When a ciphertext is refused, and how long the plaintext of an accepted one is. */
  lemma {:induction false} DecryptedMeans(enc: Bytes -> Bytes, dec: Bytes -> Bytes, c: Bytes)
    requires IsCipher(enc, dec)
    ensures Decrypted(dec, c) == TooShort <==> |c| < 16
    ensures Decrypted(dec, c) == BadLength <==> |c| >= 16 && |c| % 16 != 0 && |c| % 16 != 1
    ensures Decrypted(dec, c) == BadTrailer <==> |c| >= 16 && |c| % 16 == 1 && (c[|c| - 1] == 0 || c[|c| - 1] as int >= 16)
    ensures Decrypted(dec, c).Ok? ==>
              |Decrypted(dec, c).plain| == if |c| % 16 == 0 then |c| else |c| - 1 - (16 - c[|c| - 1] as int)
  {
    RecoveryWhole(enc, dec, c, |c| / 16);
    CatLength(RecoveryOf(dec, c), |c| / 16);
    if |c| % 16 == 1 {
      LastApart(c);
      TrailerBack(c[|c| - 1]);
    }
  }

  /** Every byte of an accepted plaintext: from the decrypted block, combined with the cipher block before it after the first. */
  lemma {:induction false} DecryptedByte(enc: Bytes -> Bytes, dec: Bytes -> Bytes, c: Bytes, j: nat, i: nat)
    requires IsCipher(enc, dec) && Decrypted(dec, c).Ok? && i < 16 && 16 * j + i < |Decrypted(dec, c).plain|
    ensures 16 * j + 16 <= |c| && |dec(c[16 * j..16 * j + 16])| == 16
    ensures j == 0 ==> Decrypted(dec, c).plain[16 * j + i] == dec(c[16 * j..16 * j + 16])[i]
    ensures j > 0 ==> Decrypted(dec, c).plain[16 * j + i] == dec(c[16 * j..16 * j + 16])[i] ^ c[16 * j - 16 + i]
  {
    DecryptedMeans(enc, dec, c);
    PlainIsFront(dec, c);
    BlockInside(enc, dec, c, j, i);
    RecoveredByte(dec, c, j, i);
  }

  lemma {:induction false} BlockInside(enc: Bytes -> Bytes, dec: Bytes -> Bytes, c: Bytes, j: nat, i: nat)
    requires IsCipher(enc, dec) && i < 16 && 16 * j + i < |FullPlain(dec, c)|
    ensures 16 * j + 16 <= |c| && |Recovered(dec, c, j)| == 16 && |dec(BlockAt(c, j))| == 16
    ensures FullPlain(dec, c)[16 * j + i] == Recovered(dec, c, j)[i]
  {
    var n := |c| / 16;
    RecoveryWhole(enc, dec, c, n);
    CatLength(RecoveryOf(dec, c), n);
    CatAt(RecoveryOf(dec, c), n, j);
    assert FullPlain(dec, c)[16 * j + i] == FullPlain(dec, c)[16 * j..16 * j + 16][i];
  }

  lemma {:induction false} PlainIsFront(dec: Bytes -> Bytes, c: Bytes)
    requires Decrypted(dec, c).Ok?
    ensures Decrypted(dec, c).plain <= FullPlain(dec, c)
  {
  }

  lemma {:induction false} RecoveredByte(dec: Bytes -> Bytes, c: Bytes, j: nat, i: nat)
    requires 16 * j + 16 <= |c| && |dec(BlockAt(c, j))| == 16 && i < 16
    ensures |Recovered(dec, c, j)| == 16
    ensures j == 0 ==> Recovered(dec, c, j)[i] == dec(BlockAt(c, j))[i]
    ensures j > 0 ==> Recovered(dec, c, j)[i] == dec(BlockAt(c, j))[i] ^ c[16 * j - 16 + i]
  {
    if j == 0 {
      ZeroRight(dec(BlockAt(c, j))[i]);
    }
  }

  // ---------- the loops ----------

  /** The encryptor reuses one buffer: what a short last block leaves untouched is the previous cipher block. */
  method EncryptPassword(enc: Bytes -> Bytes, ghost dec: Bytes -> Bytes, data: Bytes) returns (out: Bytes)
    requires IsCipher(enc, dec)
    ensures out == Encrypted(enc, data)
  {
    var rem := |data| % BLOCK_SIZE;
    out := EncryptBlocks(enc, dec, data);
    if rem != 0 {
      out := out + [rem as bv8];
    }
  }

  /** The loop over the blocks. */
  method EncryptBlocks(enc: Bytes -> Bytes, ghost dec: Bytes -> Bytes, data: Bytes) returns (out: Bytes)
    requires IsCipher(enc, dec)
    ensures out == Cat(ChainOf(enc, data), Blocks(|data|))
  {
    var buf := new bv8[16](_ => 0);
    assert buf[..] == Zeros();
    out := [];
    var off := 0;
    ghost var j := 0;
    while off < |data|
      invariant off == 16 * j && (j > 0 ==> off - 16 < |data|)
      invariant out == Cat(ChainOf(enc, data), j)
      invariant buf[..] == Before(enc, data, j)
    {
      var block := EncryptBlock(enc, dec, data, buf, off, j);
      out := out + block;
      off := off + BLOCK_SIZE;
      j := j + 1;
    }
    LastBlock(|data|, j);
  }

  /** What block `j` is combined with: the cipher block before it, or zeros. */
  function Before(enc: Bytes -> Bytes, data: Bytes, j: nat): Bytes {
    if j == 0 then Zeros() else Chained(enc, data, j - 1)
  }

  method EncryptBlock(enc: Bytes -> Bytes, ghost dec: Bytes -> Bytes, data: Bytes, buf: array<bv8>, off: nat, ghost j: nat)
    returns (block: Bytes)
    requires IsCipher(enc, dec) && buf.Length == 16 && off == 16 * j < |data| && buf[..] == Before(enc, data, j)
    modifies buf
    ensures block == Chained(enc, data, j) && buf[..] == Before(enc, data, j + 1)
  {
    XorInto(buf, data, off, j);
    block := enc(buf[..]);
    ChainedLength(enc, dec, data, j);
    Overwrite(buf, block);
  }

  lemma {:induction false} LastBlock(size: nat, j: nat)
    requires 16 * j >= size && (j > 0 ==> 16 * j - 16 < size)
    ensures j == Blocks(size)
  {
  }

  /** `buf` combined in place with as much of the block as the data has. */
  method XorInto(buf: array<bv8>, data: Bytes, off: nat, ghost j: nat)
    requires buf.Length == 16 && off == 16 * j < |data|
    modifies buf
    ensures buf[..] == Xor(Padded(data, j), old(buf[..]))
  {
    var n := BLOCK_SIZE;
    if off + n > |data| {
      n := |data| - off;
    }
    ghost var was := buf[..];
    for i := 0 to n
      invariant forall k :: 0 <= k < i ==> buf[k] == Padded(data, j)[k] ^ was[k]
      invariant forall k :: i <= k < 16 ==> buf[k] == was[k]
    {
      Commute(buf[i], data[off + i]);
      buf[i] := buf[i] ^ data[off + i];
    }
    forall k | 0 <= k < 16
      ensures buf[k] == Padded(data, j)[k] ^ was[k]
    {
      ZeroIsNeutral(was[k]);
    }
  }

  lemma {:induction false} Commute(x: bv8, y: bv8)
    ensures x ^ y == y ^ x
  {
  }

  lemma {:induction false} ZeroIsNeutral(x: bv8)
    ensures 0 ^ x == x
  {
  }

  method Overwrite(buf: array<bv8>, block: Bytes)
    requires buf.Length == |block|
    modifies buf
    ensures buf[..] == block
  {
    for i := 0 to |block|
      invariant forall k :: 0 <= k < i ==> buf[k] == block[k]
    {
      buf[i] := block[i];
    }
  }

  method DecryptPassword(ghost enc: Bytes -> Bytes, dec: Bytes -> Bytes, ciphertext: Bytes) returns (r: Result)
    requires IsCipher(enc, dec)
    ensures r == Decrypted(dec, ciphertext)
  {
    if |ciphertext| < BLOCK_SIZE {
      return TooShort;
    }
    var origRem := |ciphertext| % BLOCK_SIZE;
    var trimPad := 0;
    if origRem == 1 {
      var pad := ciphertext[|ciphertext| - 1] as int;
      if pad <= 0 || pad >= BLOCK_SIZE {
        return BadTrailer;
      }
      trimPad := pad;
    } else if origRem != 0 {
      return BadLength;
    }
    var plain := UnchainAll(enc, dec, ciphertext);
    RecoveryWhole(enc, dec, ciphertext, |ciphertext| / 16);
    CatLength(RecoveryOf(dec, ciphertext), |ciphertext| / 16);
    if trimPad > 0 {
      plain := plain[..|plain| - (BLOCK_SIZE - trimPad)];
    }
    r := Ok(plain);
  }

  method ZeroBlock() returns (block: array<bv8>)
    ensures fresh(block) && block.Length == 16 && block[..] == Zeros()
  {
    block := new bv8[16](_ => 0);
    assert block[..] == Zeros();
  }

  /** The loop over the whole blocks. */
  method UnchainAll(ghost enc: Bytes -> Bytes, dec: Bytes -> Bytes, ciphertext: Bytes) returns (plain: Bytes)
    requires IsCipher(enc, dec)
    ensures plain == FullPlain(dec, ciphertext)
  {
    plain := [];
    var prev := ZeroBlock();
    var i := 0;
    ghost var j := 0;
    while i + BLOCK_SIZE <= |ciphertext|
      invariant i == 16 * j <= |ciphertext|
      invariant plain == Cat(RecoveryOf(dec, ciphertext), j)
      invariant prev[..] == Previous(ciphertext, j)
    {
      var buf := UnchainBlock(enc, dec, ciphertext, i, prev, j);
      plain := plain + buf;
      i := i + BLOCK_SIZE;
      j := j + 1;
    }
    AllBlocks(|ciphertext|, j);
  }

  lemma {:induction false} AllBlocks(size: nat, j: nat)
    requires 16 * j <= size < 16 * j + 16
    ensures j == size / 16
  {
  }

  /** One turn of the loop: decrypt, combine with the previous cipher block, and remember this one. */
  method UnchainBlock(ghost enc: Bytes -> Bytes, dec: Bytes -> Bytes, ciphertext: Bytes, i: nat, prev: array<bv8>, ghost j: nat)
    returns (buf: Bytes)
    requires IsCipher(enc, dec) && i == 16 * j && i + 16 <= |ciphertext| && prev.Length == 16
    requires prev[..] == Previous(ciphertext, j)
    modifies prev
    ensures buf == RecoveryOf(dec, ciphertext)(j) && prev[..] == Previous(ciphertext, j + 1)
  {
    var block := ciphertext[i..i + BLOCK_SIZE];
    RecoveryStep(enc, dec, ciphertext, j, prev[..]);
    buf := Unchain(dec(block), prev);
    Overwrite(prev, block);
  }

  /** Block `j` of the plaintext, from the decrypted block and the cipher block before it. */
  lemma {:induction false} RecoveryStep(enc: Bytes -> Bytes, dec: Bytes -> Bytes, c: Bytes, j: nat, prev: Bytes)
    requires IsCipher(enc, dec) && 16 * j + 16 <= |c|
    requires prev == Previous(c, j)
    ensures |dec(BlockAt(c, j))| == 16 == |prev|
    ensures RecoveryOf(dec, c)(j) == Xor(dec(BlockAt(c, j)), prev)
  {
  }

  lemma {:induction false} XorAt(a: Bytes, b: Bytes, k: nat)
    requires k < |a| == |b|
    ensures Xor(a, b)[k] == a[k] ^ b[k]
  {
  }

  method Unchain(block: Bytes, prev: array<bv8>) returns (out: Bytes)
    requires |block| == 16 == prev.Length
    ensures out == Xor(block, prev[..])
  {
    ghost var target := Xor(block, prev[..]);
    var buf := new bv8[16](k requires 0 <= k < 16 => block[k]);
    for k := 0 to 16
      invariant forall c :: 0 <= c < k ==> buf[c] == target[c]
      invariant forall c :: k <= c < 16 ==> buf[c] == block[c]
    {
      XorAt(block, prev[..], k);
      buf[k] := buf[k] ^ prev[k];
    }
    out := buf[..];
    assert out == target;
  }
}
