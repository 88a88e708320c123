/** Numbers below 256 as bytes. */
module ByteValues {
  lemma ByteValue(x: nat)
    requires x < 0x100
    ensures (x as bv8) as nat == x
  {
  }
}

/**
 * SHA-256 (src/sha256.ts) against FIPS 180-4.
 *
 * The functions read the standard as equations; the methods follow the source's
 * in-place loops over `padded`, `w` and the eight working variables.
 */
module Sha256 {

  import opened ByteValues

  type Bytes = seq<bv8>
  type Word = bv32

  // ----- Section 4.1.2: functions on words (sums wrap at 32 bits)

  function Rotr(x: Word, n: bv6): Word
    requires 0 < n < 32
  {
    (x >> n) | (x << (32 - n))
  }

  function Ch(x: Word, y: Word, z: Word): Word { (x & y) ^ (!x & z) }
  function Maj(x: Word, y: Word, z: Word): Word { (x & y) ^ (x & z) ^ (y & z) }
  function BigSigma0(x: Word): Word { Rotr(x, 2) ^ Rotr(x, 13) ^ Rotr(x, 22) }
  function BigSigma1(x: Word): Word { Rotr(x, 6) ^ Rotr(x, 11) ^ Rotr(x, 25) }
  function SmallSigma0(x: Word): Word { Rotr(x, 7) ^ Rotr(x, 18) ^ (x >> 3) }
  function SmallSigma1(x: Word): Word { Rotr(x, 17) ^ Rotr(x, 19) ^ (x >> 10) }

  // ----- Section 4.2.2 and 5.3.3: constants

  const K: seq<Word> :=
    [0x428a2f98, 0x71374491, 0xb5c0fbcf, 0xe9b5dba5, 0x3956c25b, 0x59f111f1, 0x923f82a4, 0xab1c5ed5]
    + [0xd807aa98, 0x12835b01, 0x243185be, 0x550c7dc3, 0x72be5d74, 0x80deb1fe, 0x9bdc06a7, 0xc19bf174]
    + [0xe49b69c1, 0xefbe4786, 0x0fc19dc6, 0x240ca1cc, 0x2de92c6f, 0x4a7484aa, 0x5cb0a9dc, 0x76f988da]
    + [0x983e5152, 0xa831c66d, 0xb00327c8, 0xbf597fc7, 0xc6e00bf3, 0xd5a79147, 0x06ca6351, 0x14292967]
    + [0x27b70a85, 0x2e1b2138, 0x4d2c6dfc, 0x53380d13, 0x650a7354, 0x766a0abb, 0x81c2c92e, 0x92722c85]
    + [0xa2bfe8a1, 0xa81a664b, 0xc24b8b70, 0xc76c51a3, 0xd192e819, 0xd6990624, 0xf40e3585, 0x106aa070]
    + [0x19a4c116, 0x1e376c08, 0x2748774c, 0x34b0bcb5, 0x391c0cb3, 0x4ed8aa4a, 0x5b9cca4f, 0x682e6ff3]
    + [0x748f82ee, 0x78a5636f, 0x84c87814, 0x8cc70208, 0x90befffa, 0xa4506ceb, 0xbef9a3f7, 0xc67178f2]

  const INIT := Regs(0x6a09e667, 0xbb67ae85, 0x3c6ef372, 0xa54ff53a, 0x510e527f, 0x9b05688c, 0x1f83d9ab, 0x5be0cd19)

  // ----- Section 5.1.1: padding

  function Zeros(n: nat): Bytes {
    seq(n, _ => 0)
  }

  /** The zero bytes: the smallest count that leaves 8 bytes for the length in the last block. */
  function ZeroCount(n: nat): nat {
    if n % 64 < 56 then 55 - n % 64 else 119 - n % 64
  }

  /** A number below 2^64 as eight big-endian bytes. */
  function LengthBytes(l: nat): Bytes {
    BigEndian(l / 0x1_0000_0000) + BigEndian(l)
  }

  /** The low 32 bits of a number, most significant byte first, as `DataView.setUint32` writes them. */
  function BigEndian(x: nat): (b: Bytes)
    ensures |b| == 4
  {
    [(x / 0x100_0000 % 0x100) as bv8, (x / 0x1_0000 % 0x100) as bv8, (x / 0x100 % 0x100) as bv8, (x % 0x100) as bv8]
  }

  /** The number a big-endian byte string stands for. */
  function ValueOf(b: Bytes): nat {
    if b == [] then 0 else ValueOf(b[..|b| - 1]) * 0x100 + b[|b| - 1] as nat
  }

  lemma DigitsOf(x: nat)
    ensures x % 0x1_0000_0000 ==
      ((x / 0x100_0000 % 0x100 * 0x100 + x / 0x1_0000 % 0x100) * 0x100 + x / 0x100 % 0x100) * 0x100 + x % 0x100
  {
    var a, b, c := x / 0x100, x / 0x1_0000, x / 0x100_0000;
    assert b == a / 0x100 && c == b / 0x100;
    assert x == ((c * 0x100 + b % 0x100) * 0x100 + a % 0x100) * 0x100 + x % 0x100;
    var d := c / 0x100;
    assert x == d * 0x1_0000_0000 + (((c % 0x100 * 0x100 + b % 0x100) * 0x100 + a % 0x100) * 0x100 + x % 0x100);
  }

  lemma BigEndianValue(x: nat)
    ensures ValueOf(BigEndian(x)) == x % 0x1_0000_0000
  {
    var b := BigEndian(x);
    ByteValue(x / 0x100_0000 % 0x100);
    ByteValue(x / 0x1_0000 % 0x100);
    ByteValue(x / 0x100 % 0x100);
    ByteValue(x % 0x100);
    DigitsOf(x);
    assert b[..3][..2] == b[..2] && b[..3][..2][..1] == b[..1] && b[..1][..0] == [];
    assert ValueOf(b[..1]) == b[0] as nat;
    assert ValueOf(b[..2]) == b[0] as nat * 0x100 + b[1] as nat by { assert b[..2][..1] == b[..1]; }
    assert ValueOf(b[..3]) == (b[0] as nat * 0x100 + b[1] as nat) * 0x100 + b[2] as nat;
  }

  /** A padded message ends in its bit length, as a 64-bit big-endian number. */
  lemma EndsInBitLength(m: Bytes)
    ensures var p := Padded(m); p[|p| - 8..] == LengthBytes(8 * |m|)
    ensures ValueOf(LengthBytes(8 * |m|)[..4]) == 8 * |m| / 0x1_0000_0000 % 0x1_0000_0000
    ensures ValueOf(LengthBytes(8 * |m|)[4..]) == 8 * |m| % 0x1_0000_0000
  {
    hide BigEndian, ZeroCount;
    var l := 8 * |m|;
    BigEndianValue(l / 0x1_0000_0000);
    BigEndianValue(l);
    assert LengthBytes(l)[..4] == BigEndian(l / 0x1_0000_0000) && LengthBytes(l)[4..] == BigEndian(l);
  }

  function Padded(m: Bytes): (p: Bytes)
    ensures |p| == |m| + 9 + ZeroCount(|m|)
  {
    m + [0x80] + Zeros(ZeroCount(|m|)) + LengthBytes(8 * |m|)
  }

  /** The shortest whole number of blocks that holds the message, the marker bit and the length. */
  lemma PaddedLength(m: Bytes)
    ensures |Padded(m)| % 64 == 0
    ensures |m| + 9 <= |Padded(m)| < |m| + 9 + 64
    ensures |Padded(m)| == ((|m| + 8) / 64 + 1) * 64
  {
    hide ZeroCount, Padded;
    BlockCount(|m|);
    BlockMultiple((|m| + 8) / 64 + 1);
  }

  lemma BlockMultiple(k: nat)
    ensures k * 64 % 64 == 0
  {
  }

  lemma BlockCount(n: nat)
    ensures n + 9 + ZeroCount(n) == ((n + 8) / 64 + 1) * 64
    ensures ZeroCount(n) < 64
  {
    var q, r := n / 64, n % 64;
    assert n + 8 == 64 * q + (r + 8);
    if r < 56 {
      assert (n + 8) / 64 == q;
    } else {
      assert n + 8 == 64 * (q + 1) + (r - 56);
      assert (n + 8) / 64 == q + 1;
    }
  }

  lemma PaddingInjective(a: Bytes, b: Bytes)
    requires Padded(a) == Padded(b)
    ensures a == b
  {
    MarkerPosition(a, |b|);
    MarkerPosition(b, |a|);
    assert Padded(a)[..|a|] == a && Padded(b)[..|b|] == b;
  }

  /** After the marker bit come zeros, up to the last eight bytes. */
  lemma MarkerPosition(m: Bytes, i: nat)
    ensures |m| < i < |Padded(m)| - 8 ==> Padded(m)[i] == 0
    ensures Padded(m)[|m|] == 0x80
  {
    if |m| < i < |Padded(m)| - 8 {
      assert Padded(m)[i] == Zeros(ZeroCount(|m|))[i - |m| - 1];
    }
  }

  method SetUint32(a: array<bv8>, offset: nat, value: nat)
    requires offset + 4 <= a.Length
    modifies a
    ensures a[..] == old(a[..offset]) + BigEndian(value) + old(a[offset + 4..])
  {
    a[offset] := (value / 0x100_0000 % 0x100) as bv8;
    a[offset + 1] := (value / 0x1_0000 % 0x100) as bv8;
    a[offset + 2] := (value / 0x100 % 0x100) as bv8;
    a[offset + 3] := (value % 0x100) as bv8;
  }

  method Pad(message: Bytes) returns (padded: array<bv8>)
    ensures fresh(padded) && padded[..] == Padded(message)
  {
    hide BigEndian, ZeroCount;
    var n := |message|;
    var bitLength := n * 8;
    var blocks := (n + 8) / 64 + 1;
    PaddedLength(message);
    padded := new bv8[blocks * 64](_ => 0);
    forall i | 0 <= i < n { padded[i] := message[i]; }
    padded[n] := 0x80;
    var l := padded.Length;
    assert padded[..] == message + [0x80] + Zeros(ZeroCount(n)) + Zeros(8);
    SetUint32(padded, l - 8, bitLength / 0x1_0000_0000);
    SetUint32(padded, l - 4, bitLength);
  }

  // ----- Section 6.2.2: hash computation

  datatype Regs = Regs(a: Word, b: Word, c: Word, d: Word, e: Word, f: Word, g: Word, h: Word) {
    function At(i: nat): Word
      requires i < 8
    {
      if i == 0 then a else if i == 1 then b else if i == 2 then c else if i == 3 then d
      else if i == 4 then e else if i == 5 then f else if i == 6 then g else h
    }
  }

  /** A sum modulo 2^32, which the source writes `(x + y) >>> 0`. */
  function Plus(x: Word, y: Word): Word {
    x + y
  }

  function FromBytes(b0: bv8, b1: bv8, b2: bv8, b3: bv8): Word {
    (b0 as bv32 << 24) | (b1 as bv32 << 16) | (b2 as bv32 << 8) | (b3 as bv32)
  }

  /** Step 1: the message schedule. */
  function W(block: Bytes, t: nat): Word
    requires |block| == 64
  {
    if t < 16 then
      FromBytes(block[4 * t], block[4 * t + 1], block[4 * t + 2], block[4 * t + 3])
    else Next(W(block, t - 2), W(block, t - 7), W(block, t - 15), W(block, t - 16))
  }

  function Next(w2: Word, w7: Word, w15: Word, w16: Word): Word {
    Sum4(SmallSigma1(w2), w7, SmallSigma0(w15), w16)
  }

  function Sum4(p: Word, q: Word, r: Word, s: Word): Word {
    p + q + r + s
  }

  function RoundConstant(t: nat): Word
    requires t < 64
  {
    K[t]
  }

  function Temp1(e: Word, f: Word, g: Word, h: Word, k: Word, w: Word): Word {
    h + BigSigma1(e) + Ch(e, f, g) + k + w
  }

  function Temp2(a: Word, b: Word, c: Word): Word {
    BigSigma0(a) + Maj(a, b, c)
  }

  function Round(r: Regs, k: Word, w: Word): Regs {
    var t1 := Temp1(r.e, r.f, r.g, r.h, k, w);
    var t2 := Temp2(r.a, r.b, r.c);
    Regs(Plus(t1, t2), r.a, r.b, r.c, Plus(r.d, t1), r.e, r.f, r.g)
  }

  /** Steps 2 and 3: the first `t` rounds on a block. */
  function Rounds(r: Regs, block: Bytes, t: nat): Regs
    requires |block| == 64 && t <= 64
  {
    if t == 0 then r else Round(Rounds(r, block, t - 1), RoundConstant(t - 1), W(block, t - 1))
  }

  /** Step 4: the intermediate hash value. */
  function Compress(r: Regs, block: Bytes): Regs
    requires |block| == 64
  {
    var v := Rounds(r, block, 64);
    Regs(Plus(r.a, v.a), Plus(r.b, v.b), Plus(r.c, v.c), Plus(r.d, v.d), Plus(r.e, v.e), Plus(r.f, v.f),
        Plus(r.g, v.g), Plus(r.h, v.h))
  }

  /** The hash value after the first `n` blocks. */
  function HashBlocks(p: Bytes, n: nat): Regs
    requires 64 * n <= |p|
  {
    if n == 0 then INIT else Compress(HashBlocks(p, n - 1), p[64 * (n - 1)..64 * n])
  }

  function WordBytes(x: Word): Bytes {
    [(x >> 24) as bv8, ((x >> 16) & 0xff) as bv8, ((x >> 8) & 0xff) as bv8, (x & 0xff) as bv8]
  }

  function FinalHash(m: Bytes): Regs {
    HashBlocks(Padded(m), |Padded(m)| / 64)
  }

  function Digest(m: Bytes): (d: Bytes)
    ensures |d| == 32
  {
    var r := FinalHash(m);
    WordBytes(r.a) + WordBytes(r.b) + WordBytes(r.c) + WordBytes(r.d)
    + WordBytes(r.e) + WordBytes(r.f) + WordBytes(r.g) + WordBytes(r.h)
  }

  method Schedule(padded: array<bv8>, offset: nat, w: array<Word>)
    requires offset + 64 <= padded.Length && w.Length == 64
    modifies w
    ensures forall t :: 0 <= t < 64 ==> w[t] == W(padded[offset..offset + 64], t)
  {
    hide FromBytes, Next, Expand, W;
    ghost var block := padded[offset..offset + 64];
    for i := 0 to 16
      invariant forall t :: 0 <= t < i ==> w[t] == W(block, t)
    {
      var base := offset + i * 4;
      WordOf(block, i);
      assert block[4 * i] == padded[base] && block[4 * i + 1] == padded[base + 1]
          && block[4 * i + 2] == padded[base + 2] && block[4 * i + 3] == padded[base + 3];
      w[i] := FromBytes(padded[base], padded[base + 1], padded[base + 2], padded[base + 3]);
    }
    for i := 16 to 64
      invariant forall t :: 0 <= t < i ==> w[t] == W(block, t)
    {
      ExpandIsNext(w[i - 16], w[i - 15], w[i - 7], w[i - 2]);
      LaterWord(block, i);
      w[i] := Expand(w[i - 16], w[i - 15], w[i - 7], w[i - 2]);
    }
  }

  lemma WordOf(block: Bytes, t: nat)
    requires |block| == 64 && t < 16
    ensures W(block, t) == FromBytes(block[4 * t], block[4 * t + 1], block[4 * t + 2], block[4 * t + 3])
  {
    hide FromBytes;
  }

  lemma LaterWord(block: Bytes, t: nat)
    requires |block| == 64 && t >= 16
    ensures W(block, t) == Next(W(block, t - 2), W(block, t - 7), W(block, t - 15), W(block, t - 16))
  {
    hide FromBytes, Next;
  }

  /** The source adds the four terms in another order. */
  function Expand(w16: Word, w15: Word, w7: Word, w2: Word): Word {
    Sum4(w16, SmallSigma0(w15), w7, SmallSigma1(w2))
  }

  lemma ExpandIsNext(w16: Word, w15: Word, w7: Word, w2: Word)
    ensures Expand(w16, w15, w7, w2) == Next(w2, w7, w15, w16)
  {
    hide SmallSigma0, SmallSigma1, Sum4;
    AddReorder(w16, SmallSigma0(w15), w7, SmallSigma1(w2));
  }

  lemma AddReorder(p: Word, q: Word, r: Word, s: Word)
    ensures Sum4(p, q, r, s) == Sum4(s, r, q, p)
  {
  }

  method CompressBlock(padded: array<bv8>, offset: nat, state: array<Word>, w: array<Word>)
    requires offset + 64 <= padded.Length && state.Length == 8 && w.Length == 64
    requires state != w
    modifies state, w
    ensures AsRegs(state[..]) == Compress(AsRegs(old(state[..])), padded[offset..offset + 64])
  {
    hide Temp1, Temp2, Plus, W, RoundConstant;
    Schedule(padded, offset, w);
    ghost var block := padded[offset..offset + 64];
    ghost var start := AsRegs(state[..]);
    var a, b, c, d := state[0], state[1], state[2], state[3];
    var e, f, g, h := state[4], state[5], state[6], state[7];
    for i := 0 to 64
      invariant Regs(a, b, c, d, e, f, g, h) == Rounds(start, block, i)
    {
      var temp1 := Temp1(e, f, g, h, RoundConstant(i), w[i]);
      var temp2 := Temp2(a, b, c);
      h := g;
      g := f;
      f := e;
      e := Plus(d, temp1);
      d := c;
      c := b;
      b := a;
      a := Plus(temp1, temp2);
    }
    state[0] := Plus(state[0], a);
    state[1] := Plus(state[1], b);
    state[2] := Plus(state[2], c);
    state[3] := Plus(state[3], d);
    state[4] := Plus(state[4], e);
    state[5] := Plus(state[5], f);
    state[6] := Plus(state[6], g);
    state[7] := Plus(state[7], h);
  }

  function AsRegs(s: seq<Word>): Regs
    requires |s| == 8
  {
    Regs(s[0], s[1], s[2], s[3], s[4], s[5], s[6], s[7])
  }

  method Hash(message: Bytes) returns (digest: Bytes)
    ensures digest == Digest(message)
  {
    hide Compress, WordBytes, INIT, Padded, Digest;
    var padded := Pad(message);
    PaddedLength(message);
    var state := new Word[8];
    var init := INIT;
    state[0], state[1], state[2], state[3] := init.a, init.b, init.c, init.d;
    state[4], state[5], state[6], state[7] := init.e, init.f, init.g, init.h;
    var w := new Word[64];
    var offset := 0;
    ghost var n, blocks := 0, padded.Length / 64;
    assert padded.Length == 64 * blocks;
    while offset < padded.Length
      invariant offset == 64 * n && n <= blocks
      invariant padded[..] == Padded(message)
      invariant AsRegs(state[..]) == HashBlocks(Padded(message), n)
    {
      assert padded[offset..offset + 64] == Padded(message)[offset..offset + 64];
      CompressBlock(padded, offset, state, w);
      offset := offset + 64;
      n := n + 1;
    }
    digest := WriteDigest(state);
    PrefixIsDigest(message);
  }

  method WriteDigest(state: array<Word>) returns (digest: Bytes)
    requires state.Length == 8
    ensures digest == Prefix(AsRegs(state[..]), 8)
  {
    hide WordBytes;
    digest := [];
    for i := 0 to 8
      invariant digest == Prefix(AsRegs(state[..]), i)
    {
      assert state[i] == AsRegs(state[..]).At(i);
      digest := digest + WordBytes(state[i]);
    }
  }

  /** The digest words written so far. */
  function Prefix(r: Regs, n: nat): Bytes
    requires n <= 8
  {
    if n == 0 then [] else Prefix(r, n - 1) + WordBytes(r.At(n - 1))
  }

  lemma PrefixIsDigest(m: Bytes)
    ensures Prefix(FinalHash(m), 8) == Digest(m)
  {
    hide WordBytes, FinalHash;
    var r := FinalHash(m);
    assert Prefix(r, 1) == WordBytes(r.a);
    assert Prefix(r, 2) == Prefix(r, 1) + WordBytes(r.b);
    assert Prefix(r, 3) == Prefix(r, 2) + WordBytes(r.c);
    assert Prefix(r, 4) == Prefix(r, 3) + WordBytes(r.d);
    assert Prefix(r, 5) == Prefix(r, 4) + WordBytes(r.e);
    assert Prefix(r, 6) == Prefix(r, 5) + WordBytes(r.f);
    assert Prefix(r, 7) == Prefix(r, 6) + WordBytes(r.g);
    assert Prefix(r, 8) == Prefix(r, 7) + WordBytes(r.h);
  }

  // ----- Hex digests (`sha256Hex`, `hashValue`)

  const HEX := "0123456789abcdef"

  predicate IsHex(s: string) {
    forall i :: 0 <= i < |s| ==> s[i] in HEX
  }

  function High(b: bv8): (n: nat)
    ensures n < 16
  {
    (b >> 4) as int
  }

  function Low(b: bv8): (n: nat)
    ensures n < 16
  {
    (b & 15) as int
  }

  function ToHex(b: Bytes): (s: string)
    ensures |s| == 2 * |b| && IsHex(s)
  {
    if b == [] then "" else [HEX[High(b[0])], HEX[Low(b[0])]] + ToHex(b[1..])
  }
}
