/**
 * The envelope of an entry (src/codec.ts), as text and as bytes. JSON, UTF-8 and the reading of numbers are
 * parameters of which only the round trip is used.
 */
module Codec {
  import opened Wrappers
  import opened Decimal
  import opened Strings
  import opened Entries
  import Base64
  import Sha256

  type Bytes = seq<bv8>

  /** A member of a JSON object: left out, null, or a value. */
  datatype Field<T> = Absent | Null | Value(v: T)

  datatype Meta = Meta(
    createdAt: Field<int>, expiresAt: Field<int>, staleUntil: Field<int>, revision: Field<int>,
    tags: Field<seq<string>>, version: Option<string>, metadata: Option<string>, info: Info)

  /** How metadata is written as UTF-8 JSON and read back, and how the text of a number is read. */
  datatype Platform = Platform(write: Meta -> Bytes, read: Bytes -> Option<Meta>, number: string -> Option<int>)

  datatype CodecError =
    | InvalidEnvelope | InvalidRevision | InvalidMetadata | InvalidHeader | InvalidLength | InvalidPayload

  // ----- Metadata

  function FromDeadline(d: Deadline): Field<int> {
    if d.Never? then Null else Value(d.t)
  }

  function ToMeta(e: CacheEntry): Meta {
    Meta(Value(e.createdAt), FromDeadline(e.expiresAt),
        if e.staleUntil.Some? then FromDeadline(e.staleUntil.value) else Absent,
         Value(e.revision), if e.tags.Some? && |e.tags.value| > 0 then Value(e.tags.value) else Absent,
         e.version, e.metadata, e.info)
  }

  /** The metadata of the entry as JSON are not empty and read back; so does the text of its revision. */
  predicate Faithful(p: Platform, e: CacheEntry) {
    var written := p.write(ToMeta(e));
    written != [] && p.read(written) == Some(ToMeta(e)) && p.number(IntToString(e.revision)) == Some(e.revision)
  }

  function ToDeadline(f: Field<int>): Deadline {
    if f.Value? then At(f.v) else Never
  }

  function FromMeta(m: Meta, value: Bytes): CacheEntry {
    CacheEntry(value, if m.createdAt.Value? then m.createdAt.v else 0, ToDeadline(m.expiresAt),
               if m.staleUntil.Absent? then None else Some(ToDeadline(m.staleUntil)),
               if m.revision.Value? then m.revision.v else 1,
               if m.tags.Value? then Some(m.tags.v) else None, m.version, m.metadata, m.info)
  }

  /** The entry without its list of tags when that is empty. */
  function WithoutEmptyTags(e: CacheEntry): CacheEntry {
    e.(tags := if e.tags == Some([]) then None else e.tags)
  }

  /** Nothing but an empty tag list is lost, infinite deadlines included. */
  lemma MetaRoundTrip(e: CacheEntry)
    ensures FromMeta(ToMeta(e), e.value) == WithoutEmptyTags(e)
  {
  }

  // ----- Text

  const BAR := '|'
  const PREFIX := "RSC1"

  function EntryToString(p: Platform, e: CacheEntry): string {
    PREFIX + [BAR] + (IntToString(e.revision) + [BAR]
        + (Base64.EncodeText(p.write(ToMeta(e))) + [BAR] + Base64.EncodeText(e.value)))
  }

  function EntryFromString(p: Platform, value: string): Result<CacheEntry, CodecError> {
    var parts := Split(value, BAR);
    if |parts| < 4 || parts[0] != PREFIX then Err(InvalidEnvelope)
    else
      match p.number(parts[1])
      case None => Err(InvalidRevision)
      case Some(revision) =>
        match Base64.DecodeText(parts[2])
        case Err(_) => Err(InvalidMetadata)
        case Ok(metaBytes) =>
          match p.read(metaBytes)
          case None => Err(InvalidMetadata)
          case Some(meta) =>
            match Base64.DecodeText(Join(parts[3..], BAR))
            case Err(_) => Err(InvalidPayload)
            case Ok(payload) => Ok(FromMeta(meta, payload).(revision := revision))
  }

  predicate IsEntryString(value: string) {
    StartsWith(value, PREFIX + [BAR])
  }

  /** The revision field, read without decoding anything else. */
  function ReadRevision(p: Platform, value: string): Option<int> {
    if !IsEntryString(value) then None
    else
      var rest := value[5..];
      var end := IndexOf(rest, BAR);
      if end == |rest| then None else p.number(rest[..end])
  }

  lemma PartsOf(p: Platform, e: CacheEntry)
    ensures Split(EntryToString(p, e), BAR) ==
      [PREFIX, IntToString(e.revision), Base64.EncodeText(p.write(ToMeta(e))), Base64.EncodeText(e.value)]
  {
    hide IntToString, Base64.EncodeText, Split, ToMeta;
    var r, m, v := IntToString(e.revision), Base64.EncodeText(p.write(ToMeta(e))), Base64.EncodeText(e.value);
    Base64.EncodedShape(p.write(ToMeta(e)));
    Base64.EncodedShape(e.value);
    SplitOnly(v, BAR);
    SplitNext(m, BAR, v);
    SplitNext(r, BAR, m + [BAR] + v);
    SplitNext(PREFIX, BAR, r + [BAR] + (m + [BAR] + v));
  }

  /** An entry survives its textual form up to an empty tag list. */
  lemma StringRoundTrip(p: Platform, e: CacheEntry)
    requires Faithful(p, e)
    ensures EntryFromString(p, EntryToString(p, e)) == Ok(WithoutEmptyTags(e))
  {
    hide IntToString, Base64.EncodeText, Base64.DecodeText, Split, ToMeta, FromMeta, EntryToString;
    PartsOf(p, e);
    Base64.RoundTrip(p.write(ToMeta(e)));
    Base64.RoundTrip(e.value);
    MetaRoundTrip(e);
    var parts := Split(EntryToString(p, e), BAR);
    assert parts[3..] == [Base64.EncodeText(e.value)];
    assert Join(parts[3..], BAR) == Base64.EncodeText(e.value);
  }

  lemma FirstParts(value: string)
    requires |Split(value, BAR)| >= 3 && Split(value, BAR)[0] == PREFIX
    ensures IsEntryString(value)
    ensures var rest := value[5..]; IndexOf(rest, BAR) < |rest| && Split(value, BAR)[1] == rest[..IndexOf(rest, BAR)]
  {
    hide IndexOf;
    var i := IndexOf(value, BAR);
    assert i < |value| && value[..i] == PREFIX && value[i] == BAR;
    assert value[..5] == PREFIX + [BAR];
    assert Split(value, BAR) == [PREFIX] + Split(value[5..], BAR);
  }

  /** Whenever an envelope decodes, the revision read on its own is the entry's. */
  lemma RevisionsAgree(p: Platform, value: string)
    requires EntryFromString(p, value).Ok?
    ensures ReadRevision(p, value) == Some(EntryFromString(p, value).value.revision)
  {
    hide Split, IndexOf, IsEntryString, Base64.DecodeText, FromMeta, Join;
    FirstParts(value);
  }

  // ----- Bytes

  const HEADER_SIZE := 9

  function Header(metaLength: nat): Bytes {
    [0x52, 0x53, 0x43, 0x31, 0] + Sha256.BigEndian(metaLength)
  }

  function EntryBytes(p: Platform, e: CacheEntry): Bytes {
    Header(|p.write(ToMeta(e))|) + p.write(ToMeta(e)) + e.value
  }

  /** `out.set(bytes, offset)` */
  method SetBytes(out: array<bv8>, bytes: Bytes, offset: nat)
    requires offset + |bytes| <= out.Length
    modifies out
    ensures out[..] == old(out[..offset]) + bytes + old(out[offset + |bytes|..])
  {
    forall i | 0 <= i < |bytes| {
      out[offset + i] := bytes[i];
    }
    assert out[..offset] == old(out[..offset]) && out[offset..offset + |bytes|] == bytes;
    assert out[offset + |bytes|..] == old(out[offset + |bytes|..]);
    assert out[..] == out[..offset] + out[offset..offset + |bytes|] + out[offset + |bytes|..];
  }

  lemma Refill(s: Bytes, a: Bytes, b: Bytes, c: Bytes)
    requires |s| == |a| + |b| + |c|
    ensures var t := a + s[|a|..]; t[..|a|] + b + t[|a| + |b|..] == a + b + s[|a| + |b|..]
    ensures var t := a + b + s[|a| + |b|..]; t[..|a| + |b|] + c + t[|s|..] == a + b + c
  {
  }

  /** Fills a buffer of the exact size: header, metadata, payload. */
  method EncodeEntry(p: Platform, e: CacheEntry) returns (out: array<bv8>)
    ensures out[..] == EntryBytes(p, e)
  {
    hide Sha256.BigEndian, ToMeta;
    var metaBytes := p.write(ToMeta(e));
    out := new bv8[HEADER_SIZE + |metaBytes| + |e.value|];
    ghost var blank := out[..];
    WriteHeader(out, |metaBytes|);
    Refill(blank, Header(|metaBytes|), metaBytes, e.value);
    SetBytes(out, metaBytes, HEADER_SIZE);
    SetBytes(out, e.value, HEADER_SIZE + |metaBytes|);
  }

  method WriteHeader(out: array<bv8>, metaLength: nat)
    requires out.Length >= HEADER_SIZE
    modifies out
    ensures out[..] == Header(metaLength) + old(out[HEADER_SIZE..])
  {
    hide Sha256.BigEndian;
    out[0], out[1], out[2], out[3] := 0x52, 0x53, 0x43, 0x31;
    out[4] := 0;
    var length := Sha256.BigEndian(metaLength);
    out[5], out[6], out[7], out[8] := length[0], length[1], length[2], length[3];
    assert out[..HEADER_SIZE] == Header(metaLength);
    assert out[HEADER_SIZE..] == old(out[HEADER_SIZE..]);
    assert out[..] == out[..HEADER_SIZE] + out[HEADER_SIZE..];
  }

  function DecodeEntry(p: Platform, bytes: Bytes): Result<CacheEntry, CodecError> {
    if |bytes| < HEADER_SIZE || bytes[0] != 0x52 || bytes[1] != 0x53 then Err(InvalidHeader)
    else
      var metaLength := Sha256.ValueOf(bytes[5..9]);
      if metaLength <= 0 || HEADER_SIZE + metaLength > |bytes| then Err(InvalidLength)
      else
        match p.read(bytes[HEADER_SIZE..HEADER_SIZE + metaLength])
        case None => Err(InvalidMetadata)
        case Some(meta) => Ok(FromMeta(meta, bytes[HEADER_SIZE + metaLength..]))
  }

  /** An entry survives its binary form up to an empty tag list, as long as the length of its metadata fits. */
  lemma BytesRoundTrip(p: Platform, e: CacheEntry)
    requires Faithful(p, e) && |p.write(ToMeta(e))| < 0x1_0000_0000
    ensures DecodeEntry(p, EntryBytes(p, e)) == Ok(WithoutEmptyTags(e))
  {
    hide Sha256.BigEndian, Sha256.ValueOf, ToMeta, FromMeta;
    var m := p.write(ToMeta(e));
    var bytes := EntryBytes(p, e);
    Sha256.BigEndianValue(|m|);
    FitsWord(|m|);
    assert bytes[0] == 0x52 && bytes[1] == 0x53;
    assert bytes[5..9] == Sha256.BigEndian(|m|);
    assert bytes[9..9 + |m|] == m;
    assert bytes[9 + |m|..] == e.value;
    MetaRoundTrip(e);
  }

  lemma FitsWord(n: nat)
    requires n < 0x1_0000_0000
    ensures n % 0x1_0000_0000 == n
  {
  }

  /** Of the magic number only the first two bytes matter, and the flags not at all. */
  lemma HeaderBytesIgnored(p: Platform, a: Bytes, b: Bytes)
    requires |a| == |b| >= HEADER_SIZE && a[..2] == b[..2] && a[5..] == b[5..]
    ensures DecodeEntry(p, a) == DecodeEntry(p, b)
  {
    hide Sha256.ValueOf, FromMeta;
    assert a[0] == a[..2][0] && b[0] == b[..2][0] && a[1] == a[..2][1] && b[1] == b[..2][1];
    PartOfRest(a, 5, 0, 4);
    PartOfRest(b, 5, 0, 4);
    var n := Sha256.ValueOf(a[5..9]);
    if HEADER_SIZE + n <= |a| {
      PartOfRest(a, 5, 4, 4 + n);
      PartOfRest(b, 5, 4, 4 + n);
    }
  }

  lemma PartOfRest(s: Bytes, i: nat, j: nat, k: nat)
    requires j <= k && i + k <= |s|
    ensures s[i..][j..k] == s[i + j..i + k] && s[i..][k..] == s[i + k..]
  {
  }
}
