/** What the functions and constants of SHA-256 mean, apart from the formulas that FIPS 180-4 gives for them. */
module Sha256Laws {
  import opened Sha256

  // ----- Choosing, majority

  /** Where a bit of `x` is set the bit of `y` is chosen, elsewhere that of `z`. */
  lemma ChChooses(x: Word, y: Word, z: Word)
    ensures Ch(x, y, z) & x == y & x && Ch(x, y, z) & !x == z & !x
  {
  }

  /** Wherever two of the words agree, that is the majority. */
  lemma MajAgrees(x: Word, y: Word, z: Word)
    ensures Maj(x, y, z) & !(x ^ y) == x & !(x ^ y)
    ensures Maj(x, y, z) & !(y ^ z) == y & !(y ^ z)
    ensures Maj(x, y, z) & !(x ^ z) == x & !(x ^ z)
  {
    hide Maj;
    FirstTwo(x, y, z);
    LastTwo(x, y, z);
    Outer(x, y, z);
  }

  lemma FirstTwo(x: Word, y: Word, z: Word)
    ensures Maj(x, y, z) & !(x ^ y) == x & !(x ^ y)
  {
  }

  lemma LastTwo(x: Word, y: Word, z: Word)
    ensures Maj(x, y, z) & !(y ^ z) == y & !(y ^ z)
  {
  }

  lemma Outer(x: Word, y: Word, z: Word)
    ensures Maj(x, y, z) & !(x ^ z) == x & !(x ^ z)
  {
  }

  // ----- Rotation

  predicate Bit(x: Word, i: bv6)
    requires i < 32
  {
    (x >> i) & 1 == 1
  }

  lemma Bits0(x: Word, n: bv6, i: bv6)
    requires 0 < n < 8 && i < 32
    ensures Bit(Rotr(x, n), i) == Bit(x, (i + n) & 31)
  {
  }

  lemma Bits8(x: Word, n: bv6, i: bv6)
    requires 8 <= n < 16 && i < 32
    ensures Bit(Rotr(x, n), i) == Bit(x, (i + n) & 31)
  {
  }

  lemma Bits16(x: Word, n: bv6, i: bv6)
    requires 16 <= n < 24 && i < 32
    ensures Bit(Rotr(x, n), i) == Bit(x, (i + n) & 31)
  {
  }

  lemma Bits24(x: Word, n: bv6, i: bv6)
    requires 24 <= n < 32 && i < 32
    ensures Bit(Rotr(x, n), i) == Bit(x, (i + n) & 31)
  {
  }

  /** Rotating by `n` moves each bit `n` places down, and around the end. */
  lemma RotrMovesBits(x: Word, n: bv6, i: bv6)
    requires 0 < n < 32 && i < 32
    ensures Bit(Rotr(x, n), i) == Bit(x, (i + n) & 31)
  {
    hide Rotr, Bit;
    if n < 8 { Bits0(x, n, i); }
    else if n < 16 { Bits8(x, n, i); }
    else if n < 24 { Bits16(x, n, i); }
    else { Bits24(x, n, i); }
  }

  lemma Back0(x: Word, n: bv6)
    requires 0 < n < 8
    ensures Rotr(Rotr(x, n), 32 - n) == x
  {
  }

  lemma Back8(x: Word, n: bv6)
    requires 8 <= n < 16
    ensures Rotr(Rotr(x, n), 32 - n) == x
  {
  }

  lemma Back16(x: Word, n: bv6)
    requires 16 <= n < 24
    ensures Rotr(Rotr(x, n), 32 - n) == x
  {
  }

  lemma Back24(x: Word, n: bv6)
    requires 24 <= n < 32
    ensures Rotr(Rotr(x, n), 32 - n) == x
  {
  }

  /** Rotating by `n` and then by the rest gives the word back. */
  lemma RotrBack(x: Word, n: bv6)
    requires 0 < n < 32
    ensures Rotr(Rotr(x, n), 32 - n) == x
  {
    hide Rotr;
    if n < 8 { Back0(x, n); }
    else if n < 16 { Back8(x, n); }
    else if n < 24 { Back16(x, n); }
    else { Back24(x, n); }
  }

  // ----- Bytes and words

  /** Words are read and written with their most significant byte first. */
  lemma WordOfBytes(a: bv8, b: bv8, c: bv8, d: bv8)
    ensures FromBytes(a, b, c, d) as nat == ((a as nat * 0x100 + b as nat) * 0x100 + c as nat) * 0x100 + d as nat
    ensures WordBytes(FromBytes(a, b, c, d)) == [a, b, c, d]
  {
    hide FromBytes, WordBytes;
    var x := a as Word;
    var y := (x << 8) | (b as Word);
    var z := (y << 8) | (c as Word);
    Nested(a, b, c, d);
    OneMore(x, b);
    OneMore(y, c);
    OneMore(z, d);
    Widened(a);
  }

  lemma Nested(a: bv8, b: bv8, c: bv8, d: bv8)
    ensures var x := a as Word; var y := (x << 8) | (b as Word); var z := (y << 8) | (c as Word);
            x <= 0xff && y <= 0xffff && z <= 0xff_ffff && FromBytes(a, b, c, d) == (z << 8) | (d as Word)
    ensures WordBytes(FromBytes(a, b, c, d)) == [a, b, c, d]
  {
  }

  lemma OneMore(x: Word, b: bv8)
    requires x <= 0xff_ffff
    ensures ((x << 8) | (b as Word)) as nat == x as nat * 0x100 + b as nat
  {
  }

  lemma Widened(b: bv8)
    ensures (b as Word) as nat == b as nat
  {
  }

  lemma BytesOfWord(x: Word)
    ensures var b := WordBytes(x); |b| == 4 && FromBytes(b[0], b[1], b[2], b[3]) == x && ValueOf(b) == x as nat
  {
    var b := WordBytes(x);
    var a, c, d, e := b[0], b[1], b[2], b[3];
    BackToWord(x);
    WordOfBytes(a, c, d, e);
    ValueOfFour(a, c, d, e);
    assert b == [a, c, d, e];
  }

  lemma BackToWord(x: Word)
    ensures var b := WordBytes(x); |b| == 4 && FromBytes(b[0], b[1], b[2], b[3]) == x
  {
  }

  lemma ValueOfFour(a: bv8, b: bv8, c: bv8, d: bv8)
    ensures ValueOf([a, b, c, d]) == ((a as nat * 0x100 + b as nat) * 0x100 + c as nat) * 0x100 + d as nat
  {
    var s := [a, b, c, d];
    assert s[..3] == [a, b, c] && [a, b, c][..2] == [a, b] && [a, b][..1] == [a] && [a][..0] == [];
    assert ValueOf([]) == 0 && ValueOf([a]) == a as nat;
    assert ValueOf([a, b]) == a as nat * 0x100 + b as nat;
    assert ValueOf([a, b, c]) == (a as nat * 0x100 + b as nat) * 0x100 + c as nat;
  }

  // ----- Hexadecimal text

  /** What a hexadecimal digit stands for. */
  function DigitValue(c: char): int {
    if '0' <= c <= '9' then c as int - '0' as int else c as int - 'a' as int + 10
  }

  lemma DigitReads(n: nat)
    requires n < 16
    ensures DigitValue(HEX[n]) == n
  {
  }

  lemma Halves(b: bv8)
    ensures High(b) * 16 + Low(b) == b as int
  {
    HighIsQuotient(b);
    LowIsRemainder(b);
  }

  lemma HighIsQuotient(b: bv8)
    ensures High(b) == b as int / 16
  {
  }

  lemma LowIsRemainder(b: bv8)
    ensures Low(b) == b as int % 16
  {
  }

  /** Two digits, the higher one first, read as their byte. */
  lemma {:induction false} HexReads(b: Bytes, i: nat)
    requires i < |b|
    ensures DigitValue(ToHex(b)[2 * i]) * 16 + DigitValue(ToHex(b)[2 * i + 1]) == b[i] as int
  {
    hide High, Low, DigitValue, ToHex;
    HexStep(b);
    if i == 0 {
      DigitReads(High(b[0]));
      DigitReads(Low(b[0]));
      Halves(b[0]);
    } else {
      HexReads(b[1..], i - 1);
    }
  }

  lemma HexStep(b: Bytes)
    requires b != []
    ensures ToHex(b)[0] == HEX[High(b[0])] && ToHex(b)[1] == HEX[Low(b[0])]
    ensures forall k :: 0 <= k < 2 * |b[1..]| ==> ToHex(b)[k + 2] == ToHex(b[1..])[k]
  {
    hide High, Low;
  }

  // ----- Constants

  /** The first 64 prime numbers. */
  const PRIMES: seq<nat> :=
    [2, 3, 5, 7, 11, 13, 17, 19]
    + [23, 29, 31, 37, 41, 43, 47, 53]
    + [59, 61, 67, 71, 73, 79, 83, 89]
    + [97, 101, 103, 107, 109, 113, 127, 131]
    + [137, 139, 149, 151, 157, 163, 167, 173]
    + [179, 181, 191, 193, 197, 199, 211, 223]
    + [227, 229, 233, 239, 241, 251, 257, 263]
    + [269, 271, 277, 281, 283, 293, 307, 311]

  /** `n` is the cube root of `p`, in units of 2^-32 and rounded down. */
  predicate CubeRoot(p: nat, n: nat) {
    n * n * n <= p * 0x1_0000_0000_0000_0000_0000_0000 < (n + 1) * (n + 1) * (n + 1)
  }

  /** With the integer part `a` in front, the constant is the cube root of its prime. */
  predicate IsCubeRoot(t: nat, a: nat)
    requires t < 64
  {
    CubeRoot(PRIMES[t], a * 0x1_0000_0000 + RoundConstant(t) as nat)
  }

  /** The same of the square root. */
  predicate SquareRootPart(p: nat, a: nat, k: nat) {
    var n := a * 0x1_0000_0000 + k;
    n * n <= p * 0x1_0000_0000_0000_0000 < (n + 1) * (n + 1)
  }

  lemma Constants0(t: nat)
    requires t < 4
    ensures exists a :: IsCubeRoot(t, a)
  {
    assert PRIMES[0] == 2 && RoundConstant(0) == 0x428a2f98;
    assert PRIMES[1] == 3 && RoundConstant(1) == 0x71374491;
    assert PRIMES[2] == 5 && RoundConstant(2) == 0xb5c0fbcf;
    assert PRIMES[3] == 7 && RoundConstant(3) == 0xe9b5dba5;
    if t == 0 { assert IsCubeRoot(0, 1); }
    else if t == 1 { assert IsCubeRoot(1, 1); }
    else if t == 2 { assert IsCubeRoot(2, 1); }
    else if t == 3 { assert IsCubeRoot(3, 1); }
  }

  lemma Constants4(t: nat)
    requires 4 <= t < 8
    ensures exists a :: IsCubeRoot(t, a)
  {
    assert PRIMES[4] == 11 && RoundConstant(4) == 0x3956c25b;
    assert PRIMES[5] == 13 && RoundConstant(5) == 0x59f111f1;
    assert PRIMES[6] == 17 && RoundConstant(6) == 0x923f82a4;
    assert PRIMES[7] == 19 && RoundConstant(7) == 0xab1c5ed5;
    if t == 4 { assert IsCubeRoot(4, 2); }
    else if t == 5 { assert IsCubeRoot(5, 2); }
    else if t == 6 { assert IsCubeRoot(6, 2); }
    else if t == 7 { assert IsCubeRoot(7, 2); }
  }

  lemma Constants8(t: nat)
    requires 8 <= t < 12
    ensures exists a :: IsCubeRoot(t, a)
  {
    assert PRIMES[8] == 23 && RoundConstant(8) == 0xd807aa98;
    assert PRIMES[9] == 29 && RoundConstant(9) == 0x12835b01;
    assert PRIMES[10] == 31 && RoundConstant(10) == 0x243185be;
    assert PRIMES[11] == 37 && RoundConstant(11) == 0x550c7dc3;
    if t == 8 { assert IsCubeRoot(8, 2); }
    else if t == 9 { assert IsCubeRoot(9, 3); }
    else if t == 10 { assert IsCubeRoot(10, 3); }
    else if t == 11 { assert IsCubeRoot(11, 3); }
  }

  lemma Constants12(t: nat)
    requires 12 <= t < 16
    ensures exists a :: IsCubeRoot(t, a)
  {
    assert PRIMES[12] == 41 && RoundConstant(12) == 0x72be5d74;
    assert PRIMES[13] == 43 && RoundConstant(13) == 0x80deb1fe;
    assert PRIMES[14] == 47 && RoundConstant(14) == 0x9bdc06a7;
    assert PRIMES[15] == 53 && RoundConstant(15) == 0xc19bf174;
    if t == 12 { assert IsCubeRoot(12, 3); }
    else if t == 13 { assert IsCubeRoot(13, 3); }
    else if t == 14 { assert IsCubeRoot(14, 3); }
    else if t == 15 { assert IsCubeRoot(15, 3); }
  }

  lemma Constants16(t: nat)
    requires 16 <= t < 20
    ensures exists a :: IsCubeRoot(t, a)
  {
    assert PRIMES[16] == 59 && RoundConstant(16) == 0xe49b69c1;
    assert PRIMES[17] == 61 && RoundConstant(17) == 0xefbe4786;
    assert PRIMES[18] == 67 && RoundConstant(18) == 0x0fc19dc6;
    assert PRIMES[19] == 71 && RoundConstant(19) == 0x240ca1cc;
    if t == 16 { assert IsCubeRoot(16, 3); }
    else if t == 17 { assert IsCubeRoot(17, 3); }
    else if t == 18 { assert IsCubeRoot(18, 4); }
    else if t == 19 { assert IsCubeRoot(19, 4); }
  }

  lemma Constants20(t: nat)
    requires 20 <= t < 24
    ensures exists a :: IsCubeRoot(t, a)
  {
    assert PRIMES[20] == 73 && RoundConstant(20) == 0x2de92c6f;
    assert PRIMES[21] == 79 && RoundConstant(21) == 0x4a7484aa;
    assert PRIMES[22] == 83 && RoundConstant(22) == 0x5cb0a9dc;
    assert PRIMES[23] == 89 && RoundConstant(23) == 0x76f988da;
    if t == 20 { assert IsCubeRoot(20, 4); }
    else if t == 21 { assert IsCubeRoot(21, 4); }
    else if t == 22 { assert IsCubeRoot(22, 4); }
    else if t == 23 { assert IsCubeRoot(23, 4); }
  }

  lemma Constants24(t: nat)
    requires 24 <= t < 28
    ensures exists a :: IsCubeRoot(t, a)
  {
    assert PRIMES[24] == 97 && RoundConstant(24) == 0x983e5152;
    assert PRIMES[25] == 101 && RoundConstant(25) == 0xa831c66d;
    assert PRIMES[26] == 103 && RoundConstant(26) == 0xb00327c8;
    assert PRIMES[27] == 107 && RoundConstant(27) == 0xbf597fc7;
    if t == 24 { assert IsCubeRoot(24, 4); }
    else if t == 25 { assert IsCubeRoot(25, 4); }
    else if t == 26 { assert IsCubeRoot(26, 4); }
    else if t == 27 { assert IsCubeRoot(27, 4); }
  }

  lemma Constants28(t: nat)
    requires 28 <= t < 32
    ensures exists a :: IsCubeRoot(t, a)
  {
    assert PRIMES[28] == 109 && RoundConstant(28) == 0xc6e00bf3;
    assert PRIMES[29] == 113 && RoundConstant(29) == 0xd5a79147;
    assert PRIMES[30] == 127 && RoundConstant(30) == 0x06ca6351;
    assert PRIMES[31] == 131 && RoundConstant(31) == 0x14292967;
    if t == 28 { assert IsCubeRoot(28, 4); }
    else if t == 29 { assert IsCubeRoot(29, 4); }
    else if t == 30 { assert IsCubeRoot(30, 5); }
    else if t == 31 { assert IsCubeRoot(31, 5); }
  }

  lemma Constants32(t: nat)
    requires 32 <= t < 36
    ensures exists a :: IsCubeRoot(t, a)
  {
    assert PRIMES[32] == 137 && RoundConstant(32) == 0x27b70a85;
    assert PRIMES[33] == 139 && RoundConstant(33) == 0x2e1b2138;
    assert PRIMES[34] == 149 && RoundConstant(34) == 0x4d2c6dfc;
    assert PRIMES[35] == 151 && RoundConstant(35) == 0x53380d13;
    if t == 32 { assert IsCubeRoot(32, 5); }
    else if t == 33 { assert IsCubeRoot(33, 5); }
    else if t == 34 { assert IsCubeRoot(34, 5); }
    else if t == 35 { assert IsCubeRoot(35, 5); }
  }

  lemma Constants36(t: nat)
    requires 36 <= t < 40
    ensures exists a :: IsCubeRoot(t, a)
  {
    assert PRIMES[36] == 157 && RoundConstant(36) == 0x650a7354;
    assert PRIMES[37] == 163 && RoundConstant(37) == 0x766a0abb;
    assert PRIMES[38] == 167 && RoundConstant(38) == 0x81c2c92e;
    assert PRIMES[39] == 173 && RoundConstant(39) == 0x92722c85;
    if t == 36 { assert IsCubeRoot(36, 5); }
    else if t == 37 { assert IsCubeRoot(37, 5); }
    else if t == 38 { assert IsCubeRoot(38, 5); }
    else if t == 39 { assert IsCubeRoot(39, 5); }
  }

  lemma Constants40(t: nat)
    requires 40 <= t < 44
    ensures exists a :: IsCubeRoot(t, a)
  {
    assert PRIMES[40] == 179 && RoundConstant(40) == 0xa2bfe8a1;
    assert PRIMES[41] == 181 && RoundConstant(41) == 0xa81a664b;
    assert PRIMES[42] == 191 && RoundConstant(42) == 0xc24b8b70;
    assert PRIMES[43] == 193 && RoundConstant(43) == 0xc76c51a3;
    if t == 40 { assert IsCubeRoot(40, 5); }
    else if t == 41 { assert IsCubeRoot(41, 5); }
    else if t == 42 { assert IsCubeRoot(42, 5); }
    else if t == 43 { assert IsCubeRoot(43, 5); }
  }

  lemma Constants44(t: nat)
    requires 44 <= t < 48
    ensures exists a :: IsCubeRoot(t, a)
  {
    assert PRIMES[44] == 197 && RoundConstant(44) == 0xd192e819;
    assert PRIMES[45] == 199 && RoundConstant(45) == 0xd6990624;
    assert PRIMES[46] == 211 && RoundConstant(46) == 0xf40e3585;
    assert PRIMES[47] == 223 && RoundConstant(47) == 0x106aa070;
    if t == 44 { assert IsCubeRoot(44, 5); }
    else if t == 45 { assert IsCubeRoot(45, 5); }
    else if t == 46 { assert IsCubeRoot(46, 5); }
    else if t == 47 { assert IsCubeRoot(47, 6); }
  }

  lemma Constants48(t: nat)
    requires 48 <= t < 52
    ensures exists a :: IsCubeRoot(t, a)
  {
    assert PRIMES[48] == 227 && RoundConstant(48) == 0x19a4c116;
    assert PRIMES[49] == 229 && RoundConstant(49) == 0x1e376c08;
    assert PRIMES[50] == 233 && RoundConstant(50) == 0x2748774c;
    assert PRIMES[51] == 239 && RoundConstant(51) == 0x34b0bcb5;
    if t == 48 { assert IsCubeRoot(48, 6); }
    else if t == 49 { assert IsCubeRoot(49, 6); }
    else if t == 50 { assert IsCubeRoot(50, 6); }
    else if t == 51 { assert IsCubeRoot(51, 6); }
  }

  lemma Constants52(t: nat)
    requires 52 <= t < 56
    ensures exists a :: IsCubeRoot(t, a)
  {
    assert PRIMES[52] == 241 && RoundConstant(52) == 0x391c0cb3;
    assert PRIMES[53] == 251 && RoundConstant(53) == 0x4ed8aa4a;
    assert PRIMES[54] == 257 && RoundConstant(54) == 0x5b9cca4f;
    assert PRIMES[55] == 263 && RoundConstant(55) == 0x682e6ff3;
    if t == 52 { assert IsCubeRoot(52, 6); }
    else if t == 53 { assert IsCubeRoot(53, 6); }
    else if t == 54 { assert IsCubeRoot(54, 6); }
    else if t == 55 { assert IsCubeRoot(55, 6); }
  }

  lemma Constants56(t: nat)
    requires 56 <= t < 60
    ensures exists a :: IsCubeRoot(t, a)
  {
    assert PRIMES[56] == 269 && RoundConstant(56) == 0x748f82ee;
    assert PRIMES[57] == 271 && RoundConstant(57) == 0x78a5636f;
    assert PRIMES[58] == 277 && RoundConstant(58) == 0x84c87814;
    assert PRIMES[59] == 281 && RoundConstant(59) == 0x8cc70208;
    if t == 56 { assert IsCubeRoot(56, 6); }
    else if t == 57 { assert IsCubeRoot(57, 6); }
    else if t == 58 { assert IsCubeRoot(58, 6); }
    else if t == 59 { assert IsCubeRoot(59, 6); }
  }

  lemma Constants60(t: nat)
    requires 60 <= t < 64
    ensures exists a :: IsCubeRoot(t, a)
  {
    assert PRIMES[60] == 283 && RoundConstant(60) == 0x90befffa;
    assert PRIMES[61] == 293 && RoundConstant(61) == 0xa4506ceb;
    assert PRIMES[62] == 307 && RoundConstant(62) == 0xbef9a3f7;
    assert PRIMES[63] == 311 && RoundConstant(63) == 0xc67178f2;
    if t == 60 { assert IsCubeRoot(60, 6); }
    else if t == 61 { assert IsCubeRoot(61, 6); }
    else if t == 62 { assert IsCubeRoot(62, 6); }
    else if t == 63 { assert IsCubeRoot(63, 6); }
  }

  /** The round constants are the fractional parts of the cube roots of the first 64 primes. */
  lemma RoundConstantsAreCubeRoots(t: nat)
    requires t < 64
    ensures exists a :: IsCubeRoot(t, a)
  {
    hide IsCubeRoot;
    if t < 4 { Constants0(t); }
    else if t < 8 { Constants4(t); }
    else if t < 12 { Constants8(t); }
    else if t < 16 { Constants12(t); }
    else if t < 20 { Constants16(t); }
    else if t < 24 { Constants20(t); }
    else if t < 28 { Constants24(t); }
    else if t < 32 { Constants28(t); }
    else if t < 36 { Constants32(t); }
    else if t < 40 { Constants36(t); }
    else if t < 44 { Constants40(t); }
    else if t < 48 { Constants44(t); }
    else if t < 52 { Constants48(t); }
    else if t < 56 { Constants52(t); }
    else if t < 60 { Constants56(t); }
    else if t < 64 { Constants60(t); }
  }

  /** The initial hash value is made of the fractional parts of the square roots of the first eight primes. */
  lemma InitialValueIsSquareRoots()
    ensures SquareRootPart(PRIMES[0], 1, INIT.a as nat)
    ensures SquareRootPart(PRIMES[1], 1, INIT.b as nat)
    ensures SquareRootPart(PRIMES[2], 2, INIT.c as nat)
    ensures SquareRootPart(PRIMES[3], 2, INIT.d as nat)
    ensures SquareRootPart(PRIMES[4], 3, INIT.e as nat)
    ensures SquareRootPart(PRIMES[5], 3, INIT.f as nat)
    ensures SquareRootPart(PRIMES[6], 4, INIT.g as nat)
    ensures SquareRootPart(PRIMES[7], 4, INIT.h as nat)
  {
    assert PRIMES[0] == 2;
    assert PRIMES[1] == 3;
    assert PRIMES[2] == 5;
    assert PRIMES[3] == 7;
    assert PRIMES[4] == 11;
    assert PRIMES[5] == 13;
    assert PRIMES[6] == 17;
    assert PRIMES[7] == 19;
  }
}
