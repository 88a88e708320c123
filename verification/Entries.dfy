/** Cache entries and freshness (src/entry.ts, src/types.ts). */
module Entries {
  import opened Wrappers

  /** An absolute timestamp, or the `Infinity` of an entry without a TTL. */
  datatype Deadline = At(t: int) | Never

  datatype EntryState = ValueState | NullState | ErrorState

  /** Fields that only describe an entry. */
  datatype Info = Info(
    state: Option<EntryState>, namespace: Option<string>, visibility: Option<string>,
    compressed: Option<string>, serializer: Option<string>, title: Option<string>)

  /** A cached entry; user metadata is held as its JSON text. */
  datatype CacheEntry = CacheEntry(
    value: seq<bv8>, createdAt: int, expiresAt: Deadline, staleUntil: Option<Deadline>, revision: int,
    tags: Option<seq<string>>, version: Option<string>, metadata: Option<string>, info: Info)

  datatype Freshness = Fresh | Stale | Expired

  predicate Before(now: int, d: Deadline) {
    d.Never? || now < d.t
  }

  function GetFreshness(expiresAt: Deadline, staleUntil: Option<Deadline>, now: int): Freshness {
    if Before(now, expiresAt) then Fresh
    else if staleUntil.Some? && Before(now, staleUntil.value) then Stale
    else Expired
  }

  function Later(a: Deadline, b: Deadline): Deadline {
    if a.Never? || b.Never? then Never else if a.t < b.t then b else a
  }

  /** The moment from which the memory storage may drop an entry (src/memory.ts). */
  function RetentionDeadline(expiresAt: Deadline, staleUntil: Option<Deadline>): Deadline {
    if staleUntil.None? then expiresAt else Later(expiresAt, staleUntil.value)
  }

  /** The storage drops a record exactly when the freshness rule calls it expired. */
  lemma RetentionIsFreshness(expiresAt: Deadline, staleUntil: Option<Deadline>, now: int)
    ensures Before(now, RetentionDeadline(expiresAt, staleUntil))
            <==> GetFreshness(expiresAt, staleUntil, now) != Expired
  {
  }

  /** Time only makes an entry older. */
  lemma ExpiryIsFinal(expiresAt: Deadline, staleUntil: Option<Deadline>, now: int, later: int)
    requires now <= later && GetFreshness(expiresAt, staleUntil, now) == Expired
    ensures GetFreshness(expiresAt, staleUntil, later) == Expired
  {
  }

  predicate Live(e: CacheEntry, now: int) {
    Before(now, RetentionDeadline(e.expiresAt, e.staleUntil))
  }

  function TagsOf(e: CacheEntry): seq<string> {
    if e.tags.Some? then e.tags.value else []
  }

  function TagBytes(tags: seq<string>): nat {
    if tags == [] then 0 else TagBytes(tags[..|tags| - 1]) + 2 * |tags[|tags| - 1]|
  }

  function TextLength(s: Option<string>): nat {
    if s.Some? then |s.value| else 0
  }

  /** The approximate footprint of an entry. */
  function EntrySize(e: CacheEntry): (n: nat)
    ensures n >= 64
  {
    |e.value| + 64 + TagBytes(TagsOf(e)) + TextLength(e.metadata) + TextLength(e.version)
  }

  method MeasureEntry(e: CacheEntry) returns (size: nat)
    ensures size == EntrySize(e)
  {
    size := |e.value| + 64;
    if e.tags.Some? {
      var tags, i := e.tags.value, 0;
      while i < |tags|
        invariant i <= |tags|
        invariant size == |e.value| + 64 + TagBytes(tags[..i])
      {
        assert tags[..i + 1][..i] == tags[..i];
        size := size + |tags[i]| * 2;
        i := i + 1;
      }
      assert tags[..|tags|] == tags;
    }
    if e.metadata.Some? { size := size + |e.metadata.value|; }
    if e.version.Some? { size := size + |e.version.value|; }
  }

  // ----- What the footprint counts

  function AllCharacters(tags: seq<string>): string {
    if tags == [] then "" else tags[0] + AllCharacters(tags[1..])
  }

  lemma {:induction false} TagCharacters(tags: seq<string>)
    ensures TagBytes(tags) == 2 * |AllCharacters(tags)|
  {
    if |tags| > 1 {
      var front, last := tags[..|tags| - 1], tags[|tags| - 1];
      TagCharacters(front);
      CharactersAppend(front, last);
      assert front + [last] == tags;
    } else if |tags| == 1 {
      assert tags[..0] == [] && tags[1..] == [] && TagBytes([]) == 0;
    }
  }

  lemma {:induction false} CharactersAppend(tags: seq<string>, t: string)
    ensures |AllCharacters(tags + [t])| == |AllCharacters(tags)| + |t|
  {
    if tags == [] {
      assert [t][1..] == [];
    } else {
      CharactersAppend(tags[1..], t);
      assert (tags + [t])[1..] == tags[1..] + [t];
    }
  }

  /** Of entries that differ in one part only, the sizes differ by the bytes or characters of that part. */
  lemma SizeGrows(e: CacheEntry, value: seq<bv8>, tags: seq<string>, metadata: string, version: string)
    ensures EntrySize(e.(value := value)) - EntrySize(e) == |value| - |e.value|
    ensures EntrySize(e.(tags := Some(tags))) - EntrySize(e.(tags := None)) == 2 * |AllCharacters(tags)|
    ensures EntrySize(e.(metadata := Some(metadata))) - EntrySize(e.(metadata := None)) == |metadata|
    ensures EntrySize(e.(version := Some(version))) - EntrySize(e.(version := None)) == |version|
    ensures EntrySize(e.(value := [], tags := None, metadata := None, version := None)) == 64
  {
    hide TagBytes, AllCharacters;
    TagCharacters(tags);
    TagCharacters([]);
    NoCharacters();
  }

  lemma NoCharacters()
    ensures |AllCharacters([])| == 0
  {
  }

  // ----- Freshness

  /** Fresh up to the deadline, stale from there up to the end of the stale window, expired from then on. */
  lemma FreshnessIs(e: CacheEntry, now: int)
    ensures GetFreshness(e.expiresAt, e.staleUntil, now) == Fresh <==> e.expiresAt.At? ==> now < e.expiresAt.t
    ensures e.expiresAt.At? && e.staleUntil == None && now >= e.expiresAt.t ==>
              GetFreshness(e.expiresAt, e.staleUntil, now) == Expired
    ensures e.expiresAt.At? && e.staleUntil.Some? && e.staleUntil.value.At? && now >= e.expiresAt.t ==>
              GetFreshness(e.expiresAt, e.staleUntil, now) == if now < e.staleUntil.value.t then Stale else Expired
  {
  }
}
