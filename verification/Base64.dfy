/**
 * Base64 without library support (src/bytes.ts), against section 4 of RFC 4648.
 *
 * The methods follow the source's loops and its 32-bit shifts; the functions
 * read the standard bit by bit, group by group.
 */
module Base64 {
  import opened Wrappers
  import opened Strings

  type Bytes = seq<bv8>

  /** Table 1 of RFC 4648: A-Z, a-z, 0-9, + and /. */
  function Letter(i: nat): char
    requires i < 64
  {
    if i < 26 then 'A' + i as char
    else if i < 52 then 'a' + (i - 26) as char
    else if i < 62 then '0' + (i - 52) as char
    else if i == 62 then '+' else '/'
  }

  function Alpha(d: bv6): char {
    Letter(d as int)
  }

  function IndexFrom(c: char, i: nat): (r: Option<nat>)
    requires i <= 64
    ensures r.Some? ==> i <= r.value < 64 && Letter(r.value) == c
    ensures r.None? ==> forall k :: i <= k < 64 ==> Letter(k) != c
    decreases 64 - i
  {
    if i == 64 then None else if Letter(i) == c then Some(i) else IndexFrom(c, i + 1)
  }

  /** The inverse table; a character outside the alphabet has no entry. */
  function Lookup(c: char): Option<bv6> {
    match IndexFrom(c, 0)
    case None => None
    case Some(i) => Some(i as bv6)
  }

  lemma LookupAlpha(d: bv6)
    ensures Lookup(Alpha(d)) == Some(d)
  {
    var r := IndexFrom(Letter(d as int), 0);
    assert r.Some? && r.value == d as int;
    assert d as int as bv6 == d;
  }

  lemma AlphaClean(d: bv6)
    ensures Alpha(d) != '=' && Alpha(d) != '|' && !IsSpace(Alpha(d))
  {
  }

  // ----- Encoding

  /** The 24 bits of a group, read off as four 6-bit values. */
  function Quad(b0: bv8, b1: bv8, b2: bv8): seq<bv6> {
    [(b0 >> 2) as bv6, (((b0 & 3) << 4) | (b1 >> 4)) as bv6, (((b1 & 15) << 2) | (b2 >> 6)) as bv6, (b2 & 63) as bv6]
  }

  function Digits(b: Bytes): seq<bv6> {
    if |b| == 0 then []
    else if |b| == 1 then Quad(b[0], 0, 0)[..2]
    else if |b| == 2 then Quad(b[0], b[1], 0)[..3]
    else Quad(b[0], b[1], b[2]) + Digits(b[3..])
  }

  function Letters(d: seq<bv6>): (s: string)
    ensures |s| == |d|
    ensures forall i :: 0 <= i < |d| ==> s[i] == Alpha(d[i])
  {
    seq(|d|, i requires 0 <= i < |d| => Alpha(d[i]))
  }

  function Padding(n: nat): string {
    if n % 3 == 1 then "==" else if n % 3 == 2 then "=" else ""
  }

  /** Section 4: the digits of every group, then one `=` per missing byte. */
  function EncodeText(b: Bytes): string {
    Letters(Digits(b)) + Padding(|b|)
  }

  /** The bytes of a group above each other in one word. */
  function ThreeBytes(b0: bv8, b1: bv8, b2: bv8): bv32 { (b0 as bv32 << 16) | (b1 as bv32 << 8) | (b2 as bv32) }
  function TwoBytes(b0: bv8, b1: bv8): bv32 { (b0 as bv32 << 16) | (b1 as bv32 << 8) }
  function OneByte(b0: bv8): bv32 { b0 as bv32 << 16 }

  method ToBase64(bytes: Bytes) returns (out: string)
    ensures out == EncodeText(bytes)
  {
    hide Symbol, Digits, Letters, Padding, ThreeBytes;
    out := "";
    var i := 0;
    assert bytes[0..] == bytes;
    while i + 2 < |bytes|
      invariant 0 <= i <= |bytes| && i % 3 == 0
      invariant Letters(Digits(bytes)) == out + Letters(Digits(bytes[i..]))
    {
      var chunk := ThreeBytes(bytes[i], bytes[i + 1], bytes[i + 2]);
      GroupStep(bytes, i, chunk);
      FourMore(out, Symbol(chunk, 18), Symbol(chunk, 12), Symbol(chunk, 6), Symbol(chunk, 0),
          Letters(Digits(bytes[i + 3..])));
      out := out + [Symbol(chunk, 18)];
      out := out + [Symbol(chunk, 12)];
      out := out + [Symbol(chunk, 6)];
      out := out + [Symbol(chunk, 0)];
      i := i + 3;
    }
    ConcatAssociative(out, Letters(Digits(bytes[i..])), Padding(|bytes|));
    var rest := EncodeRest(bytes, i);
    out := out + rest;
  }

  /** The one or two bytes that are left after the last full group, if any. */
  method EncodeRest(bytes: Bytes, i: nat) returns (out: string)
    requires i <= |bytes| <= i + 2 && i % 3 == 0
    ensures out == Letters(Digits(bytes[i..])) + Padding(|bytes|)
  {
    hide Symbol, Digits, Letters, Padding, TwoBytes, OneByte;
    var remaining := |bytes| - i;
    LastGroup(bytes, i);
    out := "";
    if remaining == 1 {
      var chunk := OneByte(bytes[i]);
      out := out + [Symbol(chunk, 18)];
      out := out + [Symbol(chunk, 12)];
      out := out + "==";
    } else if remaining == 2 {
      var chunk := TwoBytes(bytes[i], bytes[i + 1]);
      out := out + [Symbol(chunk, 18)];
      out := out + [Symbol(chunk, 12)];
      out := out + [Symbol(chunk, 6)];
      out := out + "=";
    }
  }

  lemma FourMore(s: string, a: char, b: char, c: char, d: char, rest: string)
    ensures s + ([a, b, c, d] + rest) == (s + [a] + [b] + [c] + [d]) + rest
  {
  }

  /** One character of the output: six bits of the chunk. */
  function Symbol(chunk: bv32, shift: nat): char
    requires shift in {18, 12, 6, 0}
  {
    Alpha(if shift == 18 then ((chunk >> 18) & 63) as bv6
          else if shift == 12 then ((chunk >> 12) & 63) as bv6
          else if shift == 6 then ((chunk >> 6) & 63) as bv6
          else (chunk & 63) as bv6)
  }

  function ChunkDigits(chunk: bv32): seq<bv6> {
    [((chunk >> 18) & 63) as bv6, ((chunk >> 12) & 63) as bv6, ((chunk >> 6) & 63) as bv6, (chunk & 63) as bv6]
  }

  lemma GroupStep(bytes: Bytes, i: nat, chunk: bv32)
    requires i + 2 < |bytes|
    requires chunk == ThreeBytes(bytes[i], bytes[i + 1], bytes[i + 2])
    ensures Letters(Digits(bytes[i..])) ==
      [Symbol(chunk, 18), Symbol(chunk, 12), Symbol(chunk, 6), Symbol(chunk, 0)] + Letters(Digits(bytes[i + 3..]))
  {
    hide Alpha;
    var q, rest := Quad(bytes[i], bytes[i + 1], bytes[i + 2]), Digits(bytes[i + 3..]);
    ChunkIsQuad(bytes[i], bytes[i + 1], bytes[i + 2]);
    assert bytes[i..][3..] == bytes[i + 3..];
    assert Digits(bytes[i..]) == q + rest;
    LettersConcat(q, rest);
    SymbolsAre(chunk);
  }

  lemma SymbolsAre(chunk: bv32)
    ensures Letters(ChunkDigits(chunk)) == [Symbol(chunk, 18), Symbol(chunk, 12), Symbol(chunk, 6), Symbol(chunk, 0)]
  {
    hide Alpha;
    var q, l := ChunkDigits(chunk), Letters(ChunkDigits(chunk));
    assert l[0] == Alpha(q[0]) && l[1] == Alpha(q[1]) && l[2] == Alpha(q[2]) && l[3] == Alpha(q[3]);
  }

  lemma LastGroup(bytes: Bytes, i: nat)
    requires i <= |bytes| <= i + 2 && i % 3 == 0
    ensures |bytes| == i ==> Letters(Digits(bytes[i..])) == "" && Padding(|bytes|) == ""
    ensures |bytes| == i + 1 ==>
      var chunk := OneByte(bytes[i]);
      Letters(Digits(bytes[i..])) == [Symbol(chunk, 18), Symbol(chunk, 12)] && Padding(|bytes|) == "=="
    ensures |bytes| == i + 2 ==>
      var chunk := TwoBytes(bytes[i], bytes[i + 1]);
      Letters(Digits(bytes[i..])) == [Symbol(chunk, 18), Symbol(chunk, 12), Symbol(chunk, 6)] && Padding(|bytes|) == "="
  {
    hide Alpha;
    if |bytes| == i + 1 {
      assert bytes[i..] == [bytes[i]];
      ChunkIsQuad(bytes[i], 0, 0);
    } else if |bytes| == i + 2 {
      assert bytes[i..] == [bytes[i], bytes[i + 1]];
      ChunkIsQuad(bytes[i], bytes[i + 1], 0);
    }
  }

  lemma ChunkIsQuad(b0: bv8, b1: bv8, b2: bv8)
    ensures Quad(b0, b1, b2) == ChunkDigits(ThreeBytes(b0, b1, b2))
    ensures b2 == 0 ==> TwoBytes(b0, b1) == ThreeBytes(b0, b1, b2)
    ensures b1 == 0 && b2 == 0 ==> OneByte(b0) == ThreeBytes(b0, b1, b2)
  {
  }

  lemma LettersConcat(a: seq<bv6>, b: seq<bv6>)
    ensures Letters(a + b) == Letters(a) + Letters(b)
  {
  }

  // ----- Decoding

  function Byte0(d0: bv6, d1: bv6): bv8 { (d0 as bv8 << 2) | (d1 as bv8 >> 4) }
  function Byte1(d1: bv6, d2: bv6): bv8 { ((d1 as bv8 & 15) << 4) | (d2 as bv8 >> 2) }
  function Byte2(d2: bv6, d3: bv6): bv8 { ((d2 as bv8 & 3) << 6) | (d3 as bv8) }

  /** Whole bytes carried by a run of digits; left-over bits are dropped. */
  function DecodeDigits(d: seq<bv6>): Bytes
  {
    if |d| < 2 then []
    else if |d| == 2 then [Byte0(d[0], d[1])]
    else if |d| == 3 then [Byte0(d[0], d[1]), Byte1(d[1], d[2])]
    else [Byte0(d[0], d[1]), Byte1(d[1], d[2]), Byte2(d[2], d[3])] + DecodeDigits(d[4..])
  }

  function StripPadding(s: string): string {
    if s != "" && s[|s| - 1] == '=' then StripPadding(s[..|s| - 1]) else s
  }

  /** The digits of a text, or the index of its first foreign character. */
  function ReadDigits(s: string): (r: Result<seq<bv6>, nat>)
    ensures r.Ok? ==> |r.value| == |s| && forall i :: 0 <= i < |s| ==> Lookup(s[i]) == Some(r.value[i])
    ensures r.Err? ==>
              r.error < |s| && Lookup(s[r.error]) == None
              && forall i :: 0 <= i < r.error ==> Lookup(s[i]) != None
  {
    if s == "" then Ok([])
    else
      match ReadDigits(s[..|s| - 1])
      case Err(i) => Err(i)
      case Ok(d) =>
        match Lookup(s[|s| - 1])
        case None => Err(|s| - 1)
        case Some(x) => Ok(d + [x])
  }

  function DecodeText(value: string): Result<Bytes, nat> {
    match ReadDigits(StripPadding(Trim(value)))
    case Err(i) => Err(i)
    case Ok(d) => Ok(DecodeDigits(d))
  }

  /** The byte completed when `x` follows the digits `d`, if any. */
  function NextByte(d: seq<bv6>, x: bv6): Bytes {
    if |d| % 4 == 0 then []
    else if |d| % 4 == 1 then [Byte0(d[|d| - 1], x)]
    else if |d| % 4 == 2 then [Byte1(d[|d| - 1], x)]
    else [Byte2(d[|d| - 1], x)]
  }

  lemma {:induction false} AppendDigit(d: seq<bv6>, x: bv6)
    ensures DecodeDigits(d + [x]) == DecodeDigits(d) + NextByte(d, x)
  {
    hide NextByte, DecodeDigits;
    if |d| >= 4 {
      var e := d + [x];
      AppendDigit(d[4..], x);
      assert e[4..] == d[4..] + [x] && e[..4] == d[..4];
      NextByteLater(d, x);
      GroupHead(d);
      GroupHead(e);
      ConcatAssociative(DecodeDigits(d[..4]), DecodeDigits(d[4..]), NextByte(d, x));
    } else {
      AppendToShort(d, x);
    }
  }

  lemma NextByteLater(d: seq<bv6>, x: bv6)
    requires |d| >= 4
    ensures NextByte(d[4..], x) == NextByte(d, x)
  {
    hide Byte0, Byte1, Byte2;
  }

  lemma AppendToShort(d: seq<bv6>, x: bv6)
    requires |d| < 4
    ensures DecodeDigits(d + [x]) == DecodeDigits(d) + NextByte(d, x)
  {
    hide DecodeDigits, NextByte;
    if d == [] {
      AppendToNone(x);
    } else if |d| == 1 {
      assert d == [d[0]];
      AppendToOne(d[0], x);
    } else if |d| == 2 {
      assert d == [d[0], d[1]];
      AppendToTwo(d[0], d[1], x);
    } else {
      assert d == [d[0], d[1], d[2]];
      AppendToThree(d[0], d[1], d[2], x);
    }
  }

  lemma AppendToNone(x: bv6)
    ensures DecodeDigits([] + [x]) == DecodeDigits([]) + NextByte([], x)
  {
    assert [] + [x] == [x];
  }

  lemma AppendToOne(a: bv6, x: bv6)
    ensures DecodeDigits([a] + [x]) == DecodeDigits([a]) + NextByte([a], x)
  {
    hide Byte0;
    assert [a] + [x] == [a, x];
  }

  lemma AppendToTwo(a: bv6, b: bv6, x: bv6)
    ensures DecodeDigits([a, b] + [x]) == DecodeDigits([a, b]) + NextByte([a, b], x)
  {
    hide Byte0, Byte1;
    assert [a, b] + [x] == [a, b, x];
  }

  lemma AppendToThree(a: bv6, b: bv6, c: bv6, x: bv6)
    ensures DecodeDigits([a, b, c] + [x]) == DecodeDigits([a, b, c]) + NextByte([a, b, c], x)
  {
    hide Byte0, Byte1, Byte2;
    assert [a, b, c] + [x] == [a, b, c, x];
    assert [a, b, c, x][4..] == [];
  }

  lemma ConcatAssociative<T>(a: seq<T>, b: seq<T>, c: seq<T>)
    ensures (a + b) + c == a + (b + c)
  {
  }

  lemma {:induction false} DecodedLength(d: seq<bv6>)
    ensures |DecodeDigits(d)| == |d| * 3 / 4
    ensures |DecodeDigits(d)| * 4 <= |d| * 3
  {
    if |d| >= 4 { DecodedLength(d[4..]); }
  }

  lemma GroupHead(d: seq<bv6>)
    requires |d| >= 4
    ensures DecodeDigits(d) == DecodeDigits(d[..4]) + DecodeDigits(d[4..])
  {
    assert d[..4][4..] == [];
  }

  lemma ReadDigitsPrefix(s: string, i: nat)
    requires i <= |s| && ReadDigits(s[..i]).Err?
    ensures ReadDigits(s) == ReadDigits(s[..i])
    decreases |s|
  {
    if i < |s| {
      assert s[..|s| - 1][..i] == s[..i];
      ReadDigitsPrefix(s[..|s| - 1], i);
    } else {
      assert s[..i] == s;
    }
  }

  method FromBase64(value: string) returns (r: Result<Bytes, nat>)
    ensures r == DecodeText(value)
  {
    hide Push, Take, Lookup, Pending, PendingBits, DecodeDigits, Trim;
    var input := Trim(value);
    while input != "" && input[|input| - 1] == '='
      invariant StripPadding(input) == StripPadding(Trim(value))
      decreases |input|
    {
      input := input[..|input| - 1];
    }
    assert input == StripPadding(Trim(value));
    var length := |input| * 3 / 4;
    var out := new bv8[length];
    var outIndex, bits, i := 0, 0, 0;
    var buffer: bv32 := 0;
    ghost var d: seq<bv6> := [];
    NothingPending(buffer);
    while i < |input|
      invariant 0 <= i <= |input| && |d| == i
      invariant ReadDigits(input[..i]) == Ok(d)
      invariant outIndex <= length && out[..outIndex] == DecodeDigits(d)
      invariant bits == PendingBits(i) && Pending(d, buffer)
    {
      ReadNext(input, i);
      var digit := Lookup(input[i]);
      if digit == None {
        return Err(i);
      }
      DigitStep(d, buffer, digit.value);
      buffer := Push(buffer, digit.value);
      bits := bits + 6;
      d := d + [digit.value];
      if bits >= 8 {
        bits := bits - 8;
        DecodedLength(d);
        out[outIndex] := Take(buffer, bits);
        outIndex := outIndex + 1;
        assert out[..outIndex] == out[..outIndex - 1] + [out[outIndex - 1]];
      }
      i := i + 1;
    }
    assert input[..i] == input;
    return Ok(out[..outIndex]);
  }

  lemma ReadNext(s: string, i: nat)
    requires i < |s| && ReadDigits(s[..i]).Ok?
    ensures Lookup(s[i]).None? ==> ReadDigits(s) == Err(i)
    ensures Lookup(s[i]).Some? ==> ReadDigits(s[..i + 1]) == Ok(ReadDigits(s[..i]).value + [Lookup(s[i]).value])
  {
    hide Lookup;
    assert s[..i + 1][..i] == s[..i];
    if Lookup(s[i]).None? { ReadDigitsPrefix(s, i + 1); }
  }

  /** How many bits of the last digit are still waiting after `n` digits. */
  function PendingBits(n: nat): nat {
    if n % 4 == 0 then 0 else if n % 4 == 1 then 6 else if n % 4 == 2 then 4 else 2
  }

  /** One digit enters the 32-bit buffer. */
  function Push(buffer: bv32, x: bv6): bv32 {
    (buffer << 6) | (x as bv32)
  }

  /** One byte leaves it, `bits` bits above the bottom. */
  function Take(buffer: bv32, bits: nat): bv8
    requires bits in {4, 2, 0}
  {
    (if bits == 4 then (buffer >> 4) & 0xff else if bits == 2 then (buffer >> 2) & 0xff else buffer & 0xff) as bv8
  }

  /** The bits not yet written are the low bits of the buffer; what lies above them is arbitrary. */
  predicate Pending(d: seq<bv6>, buffer: bv32) {
    && (|d| % 4 == 1 ==> buffer & 63 == d[|d| - 1] as bv32)
    && (|d| % 4 == 2 ==> buffer & 15 == d[|d| - 1] as bv32 & 15)
    && (|d| % 4 == 3 ==> buffer & 3 == d[|d| - 1] as bv32 & 3)
  }

  lemma NothingPending(buffer: bv32)
    ensures Pending([], buffer) && DecodeDigits([]) == [] && PendingBits(0) == 0
  {
  }

  /** One turn of the loop: bits that wrap out of the 32-bit buffer were already written. */
  lemma DigitStep(d: seq<bv6>, buffer: bv32, x: bv6)
    requires Pending(d, buffer)
    ensures
      var bits, next := PendingBits(|d|), Push(buffer, x);
      && Pending(d + [x], next)
      && (bits < 2 ==> PendingBits(|d| + 1) == bits + 6 && DecodeDigits(d + [x]) == DecodeDigits(d))
      && (bits >= 2 ==>
            && PendingBits(|d| + 1) == bits - 2 && bits - 2 in {4, 2, 0}
            && DecodeDigits(d + [x]) == DecodeDigits(d) + [Take(next, bits - 2)])
  {
    hide Push, Take, DecodeDigits, Pending, NextByte, PendingBits;
    PendingStep(d, buffer, x);
    AppendDigit(d, x);
    BitsStep(|d|);
    CompletedByte(d, buffer, x);
    AppendNothing(DecodeDigits(d));
  }

  lemma BitsStep(n: nat)
    ensures var bits, more := PendingBits(n), PendingBits(n + 1);
            (bits < 2 <==> n % 4 == 0) && more == (if bits < 2 then bits + 6 else bits - 2)
            && (bits >= 2 ==> more in {4, 2, 0})
  {
  }

  lemma AppendNothing<T>(s: seq<T>)
    ensures s + [] == s
  {
  }

  lemma PendingStep(d: seq<bv6>, buffer: bv32, x: bv6)
    ensures Pending(d + [x], Push(buffer, x))
  {
    hide Push;
    LowBits(buffer, x);
  }

  lemma CompletedByte(d: seq<bv6>, buffer: bv32, x: bv6)
    requires Pending(d, buffer)
    ensures PendingBits(|d|) < 2 ==> NextByte(d, x) == []
    ensures PendingBits(|d|) >= 2 ==>
              PendingBits(|d|) - 2 in {4, 2, 0}
              && NextByte(d, x) == [Take(Push(buffer, x), PendingBits(|d|) - 2)]
  {
    hide Push, Take, Byte0, Byte1, Byte2;
    if |d| > 0 { ShiftBits(buffer, d[|d| - 1], x); }
  }

  lemma LowBits(buffer: bv32, x: bv6)
    ensures var next := Push(buffer, x);
      next & 63 == x as bv32 && next & 15 == x as bv32 & 15 && next & 3 == x as bv32 & 3
  {
  }

  lemma ShiftBits(buffer: bv32, last: bv6, x: bv6)
    ensures
      var next := Push(buffer, x);
      && (buffer & 63 == last as bv32 ==> Take(next, 4) == Byte0(last, x))
      && (buffer & 15 == last as bv32 & 15 ==> Take(next, 2) == Byte1(last, x))
      && (buffer & 3 == last as bv32 & 3 ==> Take(next, 0) == Byte2(last, x))
  {
  }

  // ----- Round trip

  lemma {:induction false} DigitsRoundTrip(b: Bytes)
    ensures DecodeDigits(Digits(b)) == b
  {
    if |b| >= 3 {
      DigitsRoundTrip(b[3..]);
      var d := Digits(b);
      assert d[4..] == Digits(b[3..]);
      GroupRoundTrip(b[0], b[1], b[2]);
    } else if |b| == 2 {
      GroupRoundTrip(b[0], b[1], 0);
    } else if |b| == 1 {
      GroupRoundTrip(b[0], 0, 0);
    }
  }

  lemma GroupRoundTrip(b0: bv8, b1: bv8, b2: bv8)
    ensures
      var q := Quad(b0, b1, b2);
      Byte0(q[0], q[1]) == b0 && Byte1(q[1], q[2]) == b1 && Byte2(q[2], q[3]) == b2
  {
  }

  lemma {:induction false} DigitCount(b: Bytes)
    ensures |Digits(b)| == (|b| * 4 + 2) / 3
  {
    if |b| >= 3 { DigitCount(b[3..]); }
  }

  lemma {:induction false} ReadLetters(d: seq<bv6>)
    ensures ReadDigits(Letters(d)) == Ok(d)
  {
    if d != [] {
      var front, s := d[..|d| - 1], Letters(d);
      ReadLetters(front);
      assert s[..|s| - 1] == Letters(front);
      LookupAlpha(d[|d| - 1]);
      assert s[|s| - 1] == Alpha(d[|d| - 1]) && d == front + [d[|d| - 1]];
    }
  }

  lemma StripLetters(d: seq<bv6>, n: nat)
    ensures StripPadding(Letters(d) + Padding(n)) == Letters(d)
  {
    var s := Letters(d);
    if d != [] { AlphaClean(d[|d| - 1]); }
    assert StripPadding(s) == s;
    if n % 3 == 2 {
      assert (s + "=")[..|s|] == s;
    } else if n % 3 == 1 {
      assert (s + "==")[..|s| + 1] == s + "=";
      assert (s + "=")[..|s|] == s;
    }
  }

  /** The text is exactly four characters per started group, and never contains the envelope's `|`. */
  lemma EncodedShape(b: Bytes)
    ensures |EncodeText(b)| == (|b| + 2) / 3 * 4
    ensures '|' !in EncodeText(b)
    ensures forall i :: 0 <= i < |EncodeText(b)| ==> !IsSpace(EncodeText(b)[i])
  {
    hide Digits, Letters, Padding, IsSpace;
    DigitCount(b);
    FullGroups(|b|);
    CleanLetters(Digits(b));
  }

  lemma FullGroups(n: nat)
    ensures (n * 4 + 2) / 3 + |Padding(n)| == (n + 2) / 3 * 4
    ensures '|' !in Padding(n) && forall i :: 0 <= i < |Padding(n)| ==> !IsSpace(Padding(n)[i])
  {
  }

  lemma CleanLetters(d: seq<bv6>)
    ensures '|' !in Letters(d) && forall i :: 0 <= i < |Letters(d)| ==> !IsSpace(Letters(d)[i])
  {
    hide Alpha, IsSpace;
    forall i | 0 <= i < |d| ensures Letters(d)[i] != '|' && !IsSpace(Letters(d)[i]) {
      AlphaClean(d[i]);
    }
  }

  /** Every byte sequence survives encoding and decoding. */
  lemma RoundTrip(b: Bytes)
    ensures DecodeText(EncodeText(b)) == Ok(b)
  {
    EncodedShape(b);
    TrimNoSpace(EncodeText(b));
    StripLetters(Digits(b), |b|);
    ReadLetters(Digits(b));
    DigitsRoundTrip(b);
  }

  lemma Injective(a: Bytes, b: Bytes)
    requires EncodeText(a) == EncodeText(b)
    ensures a == b
  {
    RoundTrip(a);
    RoundTrip(b);
  }

  // ----- The alphabet of the standard, letter by letter

  lemma Alphabet0()
    ensures [Letter(0), Letter(1), Letter(2), Letter(3), Letter(4), Letter(5), Letter(6), Letter(7)]
            == "ABCDEFGH"
    ensures [Letter(8), Letter(9), Letter(10), Letter(11), Letter(12), Letter(13), Letter(14), Letter(15)]
            == "IJKLMNOP"
  {
  }

  lemma Alphabet16()
    ensures [Letter(16), Letter(17), Letter(18), Letter(19), Letter(20), Letter(21), Letter(22), Letter(23)]
            == "QRSTUVWX"
    ensures [Letter(24), Letter(25), Letter(26), Letter(27), Letter(28), Letter(29), Letter(30), Letter(31)]
            == "YZabcdef"
  {
  }

  lemma Alphabet32()
    ensures [Letter(32), Letter(33), Letter(34), Letter(35), Letter(36), Letter(37), Letter(38), Letter(39)]
            == "ghijklmn"
    ensures [Letter(40), Letter(41), Letter(42), Letter(43), Letter(44), Letter(45), Letter(46), Letter(47)]
            == "opqrstuv"
  {
  }

  lemma Alphabet48()
    ensures [Letter(48), Letter(49), Letter(50), Letter(51), Letter(52), Letter(53), Letter(54), Letter(55)]
            == "wxyz0123"
    ensures [Letter(56), Letter(57), Letter(58), Letter(59), Letter(60), Letter(61), Letter(62), Letter(63)]
            == "456789+/"
  {
  }
}
