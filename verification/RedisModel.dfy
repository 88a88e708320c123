/**
 * What the Redis adapter keeps in Redis, and its operations as functions on it. Tag index keys are pairs of a
 * namespace and a tag; every entry key has a reverse set of the tag keys it was registered under.
 */
module RedisModel {
  import opened Wrappers
  import opened Lists
  import opened Strings
  import opened Entries

  /** A string value: an encoded entry, something foreign, or an envelope that does not decode. */
  datatype Blob = Envelope(entry: CacheEntry) | Foreign(text: string) | Broken(revision: Option<int>)

  datatype Stored = Stored(blob: Blob, expiresAt: Deadline)
  datatype TagId = TagId(namespace: string, tag: string)

  /** A set without members does not exist. */
  datatype Db = Db(store: map<string, Stored>, tagSets: map<TagId, seq<string>>, refs: map<string, seq<TagId>>,
      index: seq<string>)

  /** `"-"`, or the revision that must be stored, `None` for an absent key. */
  datatype Expected = Any | Exactly(revision: Option<int>)

  datatype DecodeError = Corrupted

  // ----- Values

  function Lookup(store: map<string, Stored>, name: string, now: int): Option<Blob> {
    if name in store && Before(now, store[name].expiresAt) then Some(store[name].blob) else None
  }

  /** The revision field of an envelope, readable without decoding the rest. */
  function RevisionOf(b: Blob): Option<int> {
    match b
    case Envelope(entry) => Some(entry.revision)
    case Foreign(_) => None
    case Broken(revision) => revision
  }

  /** A foreign value counts as a miss, a corrupted one is an error. */
  function Decode(b: Option<Blob>): Result<Option<CacheEntry>, DecodeError> {
    match b
    case None => Ok(None)
    case Some(Envelope(entry)) => Ok(Some(entry))
    case Some(Foreign(_)) => Ok(None)
    case Some(Broken(_)) => Err(Corrupted)
  }

  /** The script's comparison; an empty string counts as absent. */
  predicate ScriptAccepts(current: Option<Blob>, expected: Expected) {
    expected.Any?
    || (if current.None? || current == Some(Foreign("")) then expected.revision.None?
        else expected.revision.Some? && RevisionOf(current.value) == expected.revision)
  }

  /** The comparison of the step-by-step path, on the decoded entry. */
  predicate StepwiseAccepts(current: Option<CacheEntry>, expected: Expected) {
    expected.Any? || (if current.Some? then Some(current.value.revision) else None) == expected.revision
  }

  function ScriptExpiry(ttlMs: Option<int>, now: int): Deadline {
    if ttlMs.Some? && ttlMs.value > 0 then At(now + ttlMs.value) else Never
  }

  function AtLeastOne(ms: int): int {
    if ms < 1 then 1 else ms
  }

  function StepwiseExpiry(ttlMs: Option<int>, now: int): Deadline {
    if ttlMs.Some? then At(now + AtLeastOne(ttlMs.value)) else Never
  }

  // ----- Sets

  function Members<K>(sets: map<K, seq<string>>, id: K): seq<string> {
    if id in sets then sets[id] else []
  }

  function RefsOf(refs: map<string, seq<TagId>>, name: string): seq<TagId> {
    if name in refs then refs[name] else []
  }

  /** `SADD id name` */
  function Sadd<K(==), V(==)>(sets: map<K, seq<V>>, id: K, x: V): map<K, seq<V>> {
    sets[id := Added(if id in sets then sets[id] else [], x)]
  }

  /** `SREM id name` */
  function Srem<K(==), V(==, !new)>(sets: map<K, seq<V>>, id: K, x: V): map<K, seq<V>> {
    if id !in sets then sets
    else
      var rest := Without(sets[id], x);
      if rest == [] then sets - {id} else sets[id := rest]
  }

  function SremEach(sets: map<TagId, seq<string>>, ids: seq<TagId>, name: string): map<TagId, seq<string>> {
    if ids == [] then sets else Srem(SremEach(sets, ids[..|ids| - 1], name), ids[|ids| - 1], name)
  }

  function SaddEach(sets: map<TagId, seq<string>>, ids: seq<TagId>, name: string): map<TagId, seq<string>> {
    if ids == [] then sets else Sadd(SaddEach(sets, ids[..|ids| - 1], name), ids[|ids| - 1], name)
  }

  function SaddRefs(refs: map<string, seq<TagId>>, name: string, ids: seq<TagId>): map<string, seq<TagId>> {
    if ids == [] then refs else Sadd(SaddRefs(refs, name, ids[..|ids| - 1]), name, ids[|ids| - 1])
  }

  predicate NoEmptyRefs(refs: map<string, seq<TagId>>) {
    forall n :: n in refs ==> refs[n] != []
  }

  lemma {:induction false} RefsNotEmpty(refs: map<string, seq<TagId>>, name: string, ids: seq<TagId>)
    requires NoEmptyRefs(refs)
    ensures NoEmptyRefs(SaddRefs(refs, name, ids)) && NoEmptyRefs(refs - {name})
            && NoEmptyRefs(SaddRefs(refs - {name}, name, ids))
    decreases |ids|
  {
    if ids != [] { RefsNotEmpty(refs, name, ids[..|ids| - 1]); }
  }

  function TagIds(namespace: string, tags: seq<string>): (ids: seq<TagId>)
    ensures |ids| == |tags| && forall i :: 0 <= i < |ids| ==> ids[i] == TagId(namespace, tags[i])
  {
    seq(|tags|, i requires 0 <= i < |tags| => TagId(namespace, tags[i]))
  }

  // ----- Operations

  /** Writing an entry: the old memberships go, the new ones come, the key enters the key index if there is one. */
  function Rewrite(db: Db, name: string, blob: Blob, expiry: Deadline, ids: seq<TagId>, useIndex: bool): Db {
    Db(db.store[name := Stored(blob, expiry)],
       SaddEach(SremEach(db.tagSets, RefsOf(db.refs, name), name), ids, name),
       SaddRefs(db.refs - {name}, name, ids),
       if useIndex then Added(db.index, name) else db.index)
  }

  /** A write through the script: whether it went through, and the data after it. */
  function ScriptWrite(db: Db, name: string, expected: Expected, blob: Blob, ttlMs: Option<int>, ids: seq<TagId>,
      now: int, useIndex: bool): (Result<bool, DecodeError>, Db) {
    if ScriptAccepts(Lookup(db.store, name, now), expected)
    then (Ok(true), Rewrite(db, name, blob, ScriptExpiry(ttlMs, now), ids, useIndex))
    else (Ok(false), db)
  }

  /** A write step by step: a stored value that does not decode makes it fail. */
  function StepwiseWrite(db: Db, name: string, expected: Expected, blob: Blob, ttlMs: Option<int>, ids: seq<TagId>,
      now: int, useIndex: bool): (Result<bool, DecodeError>, Db) {
    match Decode(Lookup(db.store, name, now))
    case Err(e) => (Err(e), db)
    case Ok(current) =>
      if StepwiseAccepts(current, expected)
      then (Ok(true), Rewrite(db, name, blob, StepwiseExpiry(ttlMs, now), ids, useIndex))
      else (Ok(false), db)
  }

  function WithoutAll(s: seq<string>, names: seq<string>): seq<string> {
    if names == [] then s else Without(WithoutAll(s, names[..|names| - 1]), names[|names| - 1])
  }

  function Delete(db: Db, name: string, useIndex: bool): Db {
    Db(db.store - {name}, db.tagSets, db.refs - {name}, if useIndex then Without(db.index, name) else db.index)
  }

  function DeleteMany(db: Db, names: seq<string>, useIndex: bool): Db {
    Db(db.store - (set n | n in names), db.tagSets, db.refs, if useIndex then WithoutAll(db.index, names) else db.index)
  }

  function AddTags(db: Db, name: string, ids: seq<TagId>): Db {
    db.(tagSets := SaddEach(db.tagSets, ids, name), refs := SaddRefs(db.refs, name, ids))
  }

  /** The entries registered for the tag are deleted, and the index set with them. */
  function InvalidateTag(db: Db, id: TagId): Db {
    db.(store := db.store - (set n | n in Members(db.tagSets, id)), tagSets := db.tagSets - {id})
  }

  function Matching(names: seq<string>, prefix: string): (r: seq<string>)
    ensures forall n :: n in r <==> n in names && StartsWith(n, prefix)
  {
    if names == [] then []
    else
      assert names == names[..|names| - 1] + [names[|names| - 1]];
      var last := names[|names| - 1];
      Matching(names[..|names| - 1], prefix) + if StartsWith(last, prefix) then [last] else []
  }

  /** Clearing by the key index: the indexed entries with the prefix go, and their places in the index. */
  function ClearIndexed(db: Db, prefix: string): Db {
    var names := Matching(db.index, prefix);
    db.(store := db.store - (set n | n in names), index := WithoutAll(db.index, names))
  }
}
