/**
 * The bookkeeping of the memory storage as functions on its value: records in last-use order, the reverse tag
 * index, budgets, sweeping.
 */
module MemoryShelf {
  import opened Wrappers
  import opened Lists
  import opened Strings
  import opened Entries

  datatype Config = Config(
    maxEntries: nat, maxSizeBytes: nat, sweeps: bool, interval: int, updateAgeOnGet: bool, tagIndexLimit: nat)

  datatype Record = Record(entry: CacheEntry, size: nat, tags: seq<string>)

  /** Records with their iteration order, least recently used first, and for each tag the keys registered for it. */
  datatype Shelf = Shelf(order: seq<string>, records: map<string, Record>, index: map<string, seq<string>>)

  const EMPTY := Shelf([], map[], map[])

  /** Dropping the oldest members until at most `limit` are left. */
  function Trimmed(s: seq<string>, limit: nat): seq<string> {
    if |s| > limit then s[|s| - limit..] else s
  }

  function Registered(index: map<string, seq<string>>, tag: string): seq<string> {
    if tag in index then index[tag] else []
  }

  // ----- Removal

  function Unregister(index: map<string, seq<string>>, key: string, tags: seq<string>): map<string, seq<string>> {
    map t | t in index && (t !in tags || Without(index[t], key) != []) ::
        if t in tags then Without(index[t], key) else index[t]
  }

  function Remove(s: Shelf, key: string): Shelf {
    if key !in s.records then s
    else Shelf(Without(s.order, key), s.records - {key}, Unregister(s.index, key, s.records[key].tags))
  }

  function RemoveAll(s: Shelf, keys: seq<string>): Shelf {
    if keys == [] then s else Remove(RemoveAll(s, keys[..|keys| - 1]), keys[|keys| - 1])
  }

  predicate Outlived(s: Shelf, key: string, now: int) {
    key in s.records && !Live(s.records[key].entry, now)
  }

  function ExpiredKeys(s: Shelf, keys: seq<string>, now: int): seq<string> {
    if keys == [] then []
    else
      var last := keys[|keys| - 1];
      ExpiredKeys(s, keys[..|keys| - 1], now) + if Outlived(s, last, now) then [last] else []
  }

  function Sweep(s: Shelf, now: int): Shelf {
    RemoveAll(s, ExpiredKeys(s, s.order, now))
  }

  function PrefixedKeys(keys: seq<string>, prefix: string): seq<string> {
    if keys == [] then []
    else
      var last := keys[|keys| - 1];
      PrefixedKeys(keys[..|keys| - 1], prefix) + if StartsWith(last, prefix) then [last] else []
  }

  // ----- Writing

  function Total(order: seq<string>, records: map<string, Record>): nat
    requires forall k :: k in order ==> k in records
  {
    if order == [] then 0 else records[order[0]].size + Total(order[1..], records)
  }

  /** Every record is listed once. */
  predicate Listed(s: Shelf) {
    NoDup(s.order) && (forall k :: k in s.order ==> k in s.records) && forall k :: k in s.records ==> k in s.order
  }

  predicate Fits(c: Config, s: Shelf)
    requires Listed(s)
  {
    |s.order| <= c.maxEntries && Total(s.order, s.records) <= c.maxSizeBytes
  }

  lemma RemoveListed(s: Shelf, key: string)
    requires Listed(s)
    ensures Listed(Remove(s, key))
  {
    if key in s.records { WithoutNoDup(s.order, key); }
  }

  /** Evicting the least recently used records until both budgets hold. */
  function Enforce(c: Config, s: Shelf): Shelf
    requires Listed(s)
    decreases |s.order|
  {
    if Fits(c, s) || s.order == [] then s
    else
      RemoveListed(s, s.order[0]);
      WithoutLength(s.order, s.order[0]);
      Enforce(c, Remove(s, s.order[0]))
  }

  /** Registering a key for the tags of its entry; each set keeps the newest keys only. */
  function Register(index: map<string, seq<string>>, key: string, tags: seq<string>, limit: nat)
    : map<string, seq<string>>
  {
    map t | t in index.Keys + (set x | x in tags) ::
      if t in tags then Trimmed(Added(Registered(index, t), key), limit) else index[t]
  }

  function Place(c: Config, s: Shelf, key: string, entry: CacheEntry): Shelf {
    var base := Remove(s, key);
    Shelf(base.order + [key], base.records[key := Record(entry, EntrySize(entry), TagsOf(entry))],
          Register(base.index, key, TagsOf(entry), c.tagIndexLimit))
  }

  lemma PlaceListed(c: Config, s: Shelf, key: string, entry: CacheEntry)
    requires Listed(s)
    ensures Listed(Place(c, s, key, entry))
  {
    hide Register, Unregister;
    RemoveListed(s, key);
  }

  function Write(c: Config, s: Shelf, key: string, entry: CacheEntry): Shelf
    requires Listed(s)
  {
    PlaceListed(c, s, key, entry);
    Enforce(c, Place(c, s, key, entry))
  }

  // ----- Reading and tagging

  /** A record that has not expired; an expired one is removed. */
  function Read(s: Shelf, key: string, now: int): (Option<Record>, Shelf) {
    if key !in s.records then (None, s)
    else if Outlived(s, key, now) then (None, Remove(s, key))
    else (Some(s.records[key]), s)
  }

  /** Moving a record to the most recently used end. */
  function Touch(s: Shelf, key: string): Shelf {
    s.(order := Without(s.order, key) + [key])
  }

  function Deduped(s: seq<string>): (r: seq<string>)
    ensures forall x :: x in r <==> x in s
  {
    if s == [] then []
    else
      assert s == s[..|s| - 1] + [s[|s| - 1]];
      Added(Deduped(s[..|s| - 1]), s[|s| - 1])
  }

  /** Registering a key for more tags; here nothing is trimmed. */
  function AddToIndex(index: map<string, seq<string>>, key: string, tags: seq<string>): map<string, seq<string>> {
    map t | t in index.Keys + (set x | x in tags) :: if t in tags then Added(Registered(index, t), key) else index[t]
  }

  function AddTags(s: Shelf, key: string, tags: seq<string>): Shelf {
    if key !in s.records then s
    else
      var record := s.records[key];
      Shelf(s.order, s.records[key := record.(tags := Deduped(record.tags + tags))], AddToIndex(s.index, key, tags))
  }

  function InvalidateTag(s: Shelf, tag: string): Shelf {
    if tag !in s.index then s
    else
      var rest := RemoveAll(s, s.index[tag]);
      rest.(index := rest.index - {tag})
  }

  function Clear(s: Shelf, prefix: Option<string>): Shelf {
    if prefix.None? then
      var rest := RemoveAll(s, s.order);
      rest.(index := map[])
    else RemoveAll(s, PrefixedKeys(s.order, prefix.value))
  }

  // ----- Sums of sizes

  lemma {:induction false} TotalWithout(order: seq<string>, records: map<string, Record>, key: string)
    requires NoDup(order) && key in order && forall k :: k in order ==> k in records
    ensures (forall k :: k in Without(order, key) ==> k in records - {key})
    ensures Total(Without(order, key), records - {key}) == Total(order, records) - records[key].size
  {
    if order[0] == key {
      assert key !in order[1..];
      WithoutAbsent(order[1..], key);
      assert [] + order[1..] == order[1..];
      TotalSame(order[1..], records, records - {key});
    } else {
      TotalWithout(order[1..], records, key);
      var rest := Without(order[1..], key);
      assert ([order[0]] + rest)[1..] == rest;
    }
  }

  lemma {:induction false} TotalSame(order: seq<string>, a: map<string, Record>, b: map<string, Record>)
    requires forall k :: k in order ==> k in a && k in b && a[k].size == b[k].size
    ensures Total(order, a) == Total(order, b)
  {
    if order != [] { TotalSame(order[1..], a, b); }
  }

  lemma {:induction false} TotalAppend(order: seq<string>, records: map<string, Record>, key: string)
    requires key in records && forall k :: k in order ==> k in records
    ensures Total(order + [key], records) == Total(order, records) + records[key].size
  {
    if order == [] {
      assert [key][1..] == [];
      assert Total([key], records) == records[key].size + Total([], records);
    } else {
      TotalAppend(order[1..], records, key);
      assert (order + [key])[1..] == order[1..] + [key];
    }
  }

  // ----- Operations of the storage

  datatype State = State(shelf: Shelf, lastSweep: int)

  function MaybeSweep(c: Config, st: State, now: int): State {
    if c.sweeps && now - st.lastSweep >= c.interval then State(Sweep(st.shelf, now), now) else st
  }

  function Get(c: Config, st: State, key: string, now: int): (Option<CacheEntry>, State) {
    var swept := MaybeSweep(c, st, now);
    var (record, rest) := Read(swept.shelf, key, now);
    if record.None? then (None, swept.(shelf := rest))
    else (Some(record.value.entry), swept.(shelf := if c.updateAgeOnGet then Touch(rest, key) else rest))
  }

  function Has(st: State, key: string, now: int): (bool, State) {
    var (record, rest) := Read(st.shelf, key, now);
    (record.Some?, st.(shelf := rest))
  }

  function Set(c: Config, st: State, key: string, entry: CacheEntry, onlyIfNewer: bool, now: int): State
    requires Listed(st.shelf)
  {
    var swept := MaybeSweep(c, st, now);
    SweepListed(c, st, now);
    ReadListed(swept.shelf, key, now);
    var (record, rest) := if onlyIfNewer then Read(swept.shelf, key, now) else (None, swept.shelf);
    if record.Some? && record.value.entry.revision >= entry.revision then swept.(shelf := rest)
    else swept.(shelf := Write(c, rest, key, entry))
  }

  function CompareAndSet(c: Config, st: State, key: string, entry: CacheEntry, expected: Option<int>,
      now: int): (bool, State)
    requires Listed(st.shelf)
  {
    var swept := MaybeSweep(c, st, now);
    SweepListed(c, st, now);
    ReadListed(swept.shelf, key, now);
    var (record, rest) := Read(swept.shelf, key, now);
    var current := if record.None? then None else Some(record.value.entry.revision);
    if current != expected then (false, swept.(shelf := rest)) else (true, swept.(shelf := Write(c, rest, key, entry)))
  }

  lemma {:induction false} RemoveAllListed(s: Shelf, keys: seq<string>)
    requires Listed(s)
    ensures Listed(RemoveAll(s, keys))
  {
    hide Listed, Remove;
    if keys != [] {
      RemoveAllListed(s, keys[..|keys| - 1]);
      RemoveListed(RemoveAll(s, keys[..|keys| - 1]), keys[|keys| - 1]);
    }
  }

  lemma SweepListed(c: Config, st: State, now: int)
    requires Listed(st.shelf)
    ensures Listed(MaybeSweep(c, st, now).shelf)
  {
    hide Listed, RemoveAll;
    RemoveAllListed(st.shelf, ExpiredKeys(st.shelf, st.shelf.order, now));
  }

  lemma ReadListed(s: Shelf, key: string, now: int)
    requires Listed(s)
    ensures Listed(Read(s, key, now).1)
  {
    hide Listed, Remove;
    RemoveListed(s, key);
  }
}
