/**
 * The Redis adapter (src/redis.ts, src/redis-scripts.ts) as sequences of commands on the data it keeps. Each
 * call runs without interference; the clock reading of the server is a parameter.
 */
module Redis {
  import opened Wrappers
  import opened Lists
  import opened Entries
  import R = RedisModel

  lemma FrontOf<T>(s: seq<T>, i: nat)
    requires i < |s|
    ensures s[..i + 1][..i] == s[..i] && s[..i + 1][i] == s[i] && |s[..i + 1]| == i + 1
  {
  }

  lemma NextMembers(names: seq<string>, i: nat, j: nat)
    requires i <= j <= |names|
    ensures (set n | n in names[..j]) == (set n | n in names[..i]) + (set n | n in names[i..j])
  {
    assert names[..j] == names[..i] + names[i..j];
  }

  class RedisStorage {
    const namespace: string
    const useKeyIndex: bool
    const hasEval: bool
    const batchSize: nat

    var store: map<string, R.Stored>
    var tagSets: map<R.TagId, seq<string>>
    var refs: map<string, seq<R.TagId>>
    var keyIndex: seq<string>

    ghost function Contents(): R.Db
      reads this
    {
      R.Db(store, tagSets, refs, keyIndex)
    }

    /** No set is stored without members. */
    ghost predicate Valid()
      reads this
    {
      batchSize > 0 && R.NoEmptyRefs(refs)
    }

    constructor (space: string, useIndex: bool, eval: bool, batch: nat)
      requires batch > 0
      ensures Valid() && Contents() == R.Db(map[], map[], map[], [])
      ensures namespace == space && useKeyIndex == useIndex && hasEval == eval && batchSize == batch
    {
      namespace, useKeyIndex, hasEval, batchSize := space, useIndex, eval, batch;
      store, tagSets, refs, keyIndex := map[], map[], map[], [];
    }

    // ----- Scripts

    /** `SET_ENTRY_SCRIPT`: 1 when the entry was written, 0 when the comparison failed. */
    method SetEntryScript(name: string, expected: R.Expected, blob: R.Blob, ttlMs: Option<int>, ids: seq<R.TagId>,
        now: int)
      returns (result: int)
      requires Valid()
      modifies this
      ensures Valid()
      ensures result == 0 || result == 1
      ensures (Ok(result == 1), Contents()) == R.ScriptWrite(old(Contents()), name, expected, blob, ttlMs, ids, now,
              useKeyIndex)
    {
      hide R.Rewrite, R.NoEmptyRefs;
      if !expected.Any? {
        var current := R.Lookup(store, name, now);
        if current.None? || current == Some(R.Foreign("")) {
          if expected.revision.Some? {
            return 0;
          }
        } else if expected.revision.None? {
          return 0;
        } else if R.RevisionOf(current.value) != expected.revision {
          return 0;
        }
      }
      ScriptStore(name, blob, ttlMs, ids, now);
      result := 1;
    }

    /** The part of the script that writes. */
    method ScriptStore(name: string, blob: R.Blob, ttlMs: Option<int>, ids: seq<R.TagId>, now: int)
      requires Valid()
      modifies this
      ensures Valid() && Contents() == R.Rewrite(old(Contents()), name, blob, R.ScriptExpiry(ttlMs, now), ids,
              useKeyIndex)
    {
      hide R.SaddEach, R.SremEach, R.SaddRefs, R.RefsOf, R.NoEmptyRefs, Added;
      var previous := R.RefsOf(refs, name);
      LeaveTags(previous, name);
      R.RefsNotEmpty(refs, name, ids);
      refs := refs - {name};
      store := store[name := R.Stored(blob, Never)];
      if ttlMs.Some? && ttlMs.value > 0 {
        store := store[name := R.Stored(blob, At(now + ttlMs.value))];
      }
      RegisterTags(ids, name);
      if useKeyIndex {
        keyIndex := Added(keyIndex, name);
      }
    }

    /** The script's loop over the tags of the new entry. */
    method RegisterTags(ids: seq<R.TagId>, name: string)
      modifies this`tagSets, this`refs
      ensures tagSets == R.SaddEach(old(tagSets), ids, name) && refs == R.SaddRefs(old(refs), name, ids)
    {
      var i := 0;
      while i < |ids|
        invariant i <= |ids|
        invariant tagSets == R.SaddEach(old(tagSets), ids[..i], name) && refs == R.SaddRefs(old(refs), name, ids[..i])
      {
        FrontOf(ids, i);
        tagSets := R.Sadd(tagSets, ids[i], name);
        refs := R.Sadd(refs, name, ids[i]);
        i := i + 1;
      }
      assert ids[..|ids|] == ids;
    }

    /** Removing a key from the given tag sets. */
    method LeaveTags(ids: seq<R.TagId>, name: string)
      modifies this`tagSets
      ensures tagSets == R.SremEach(old(tagSets), ids, name)
    {
      var i := 0;
      while i < |ids|
        invariant i <= |ids| && tagSets == R.SremEach(old(tagSets), ids[..i], name)
      {
        FrontOf(ids, i);
        tagSets := R.Srem(tagSets, ids[i], name);
        i := i + 1;
      }
      assert ids[..|ids|] == ids;
    }

    /** Adding a key to the given tag sets. */
    method JoinTags(ids: seq<R.TagId>, name: string)
      modifies this`tagSets
      ensures tagSets == R.SaddEach(old(tagSets), ids, name)
    {
      var i := 0;
      while i < |ids|
        invariant i <= |ids| && tagSets == R.SaddEach(old(tagSets), ids[..i], name)
      {
        FrontOf(ids, i);
        tagSets := R.Sadd(tagSets, ids[i], name);
        i := i + 1;
      }
      assert ids[..|ids|] == ids;
    }

    /** `SADD` of several tag keys to a reverse set. */
    method NoteTags(name: string, ids: seq<R.TagId>)
      modifies this`refs
      ensures refs == R.SaddRefs(old(refs), name, ids)
    {
      var i := 0;
      while i < |ids|
        invariant i <= |ids| && refs == R.SaddRefs(old(refs), name, ids[..i])
      {
        FrontOf(ids, i);
        refs := R.Sadd(refs, name, ids[i]);
        i := i + 1;
      }
      assert ids[..|ids|] == ids;
    }

    /** Deleting names in batches deletes exactly the names. */
    method DeleteInBatches(names: seq<string>, batch: nat)
      requires batch > 0
      modifies this`store
      ensures store == old(store) - (set n | n in names)
    {
      var i := 0;
      assert (set n | n in names[..0]) == {};
      while i < |names|
        invariant i <= |names| && store == old(store) - (set n | n in names[..i])
      {
        var end := if i + batch < |names| then i + batch else |names|;
        NextMembers(names, i, end);
        store := store - (set n | n in names[i..end]);
        i := end;
      }
      assert names[..|names|] == names;
    }

    /** `INVALIDATE_TAG_SCRIPT` */
    method InvalidateTagScript(id: R.TagId) returns (count: nat)
      modifies this
      ensures Contents() == R.InvalidateTag(old(Contents()), id) && count == |R.Members(old(tagSets), id)|
    {
      var members := R.Members(tagSets, id);
      DeleteInBatches(members, 500);
      tagSets := tagSets - {id};
      count := |members|;
    }

    /** `RELEASE_LOCK_SCRIPT`: only the holder's token deletes the lock. */
    method ReleaseLockScript(name: string, token: string, now: int) returns (deleted: int)
      modifies this`store
      ensures deleted == if R.Lookup(old(store), name, now) == Some(R.Foreign(token)) then 1 else 0
      ensures store == if deleted == 1 then old(store) - {name} else old(store)
    {
      if R.Lookup(store, name, now) == Some(R.Foreign(token)) {
        store := store - {name};
        return 1;
      }
      deleted := 0;
    }

    // ----- The step-by-step path

    method WriteStepwise(name: string, entry: CacheEntry, ttlMs: Option<int>, expected: R.Expected, now: int)
      returns (result: Result<bool, R.DecodeError>)
      requires Valid()
      modifies this
      ensures Valid()
      ensures (result, Contents()) ==
        R.StepwiseWrite(old(Contents()), name, expected, R.Envelope(entry), ttlMs, R.TagIds(namespace, TagsOf(entry)),
            now, useKeyIndex)
    {
      var current := R.Decode(R.Lookup(store, name, now));
      if current.Err? {
        return Err(current.error);
      }
      var revision := if current.value.Some? then Some(current.value.value.revision) else None;
      if !expected.Any? && revision != expected.revision {
        return Ok(false);
      }
      StepwiseStore(name, R.Envelope(entry), ttlMs, R.TagIds(namespace, TagsOf(entry)), now);
      result := Ok(true);
    }

    /** The part of the step-by-step path that writes. */
    method StepwiseStore(name: string, blob: R.Blob, ttlMs: Option<int>, ids: seq<R.TagId>, now: int)
      requires Valid()
      modifies this
      ensures Valid() && Contents() == R.Rewrite(old(Contents()), name, blob, R.StepwiseExpiry(ttlMs, now), ids,
              useKeyIndex)
    {
      hide R.SaddEach, R.SremEach, R.AtLeastOne, Added;
      if ttlMs.Some? {
        store := store[name := R.Stored(blob, At(now + R.AtLeastOne(ttlMs.value)))];
      } else {
        store := store[name := R.Stored(blob, Never)];
      }
      var previous := R.RefsOf(refs, name);
      LeaveTags(previous, name);
      if |previous| > 0 {
        refs := refs - {name};
      }
      ghost var bare := refs;
      NothingNoted(old(refs), name);
      JoinTags(ids, name);
      if |ids| > 0 {
        NoteTags(name, ids);
      }
      if useKeyIndex {
        keyIndex := Added(keyIndex, name);
      }
      RewrittenRefs(old(refs), bare, name, ids);
      R.RefsNotEmpty(bare, name, ids);
    }

    // ----- The storage interface

    method WriteEntry(name: string, entry: CacheEntry, ttlMs: Option<int>, expected: R.Expected, now: int)
      returns (result: Result<bool, R.DecodeError>)
      requires Valid()
      modifies this
      ensures Valid()
      ensures (result, Contents()) ==
        var ids := R.TagIds(namespace, TagsOf(entry));
        if hasEval then R.ScriptWrite(old(Contents()), name, expected, R.Envelope(entry), ttlMs, ids, now, useKeyIndex)
        else R.StepwiseWrite(old(Contents()), name, expected, R.Envelope(entry), ttlMs, ids, now, useKeyIndex)
    {
      hide R.ScriptWrite, R.StepwiseWrite;
      if hasEval {
        var r := SetEntryScript(name, expected, R.Envelope(entry), ttlMs, R.TagIds(namespace, TagsOf(entry)), now);
        return Ok(r == 1);
      }
      result := WriteStepwise(name, entry, ttlMs, expected, now);
    }

    method Get(name: string, now: int) returns (entry: Result<Option<CacheEntry>, R.DecodeError>)
      ensures entry == R.Decode(R.Lookup(store, name, now))
    {
      entry := R.Decode(R.Lookup(store, name, now));
    }

    /** Whether anything is stored, an entry or not. */
    method Has(name: string, now: int) returns (found: bool)
      ensures found <==> name in store && (store[name].expiresAt.At? ==> now < store[name].expiresAt.t)
    {
      found := R.Lookup(store, name, now).Some?;
    }

    method Delete(name: string)
      requires Valid()
      modifies this
      ensures Valid()
      ensures Contents() == R.Delete(old(Contents()), name, useKeyIndex)
    {
      store, refs := store - {name}, refs - {name};
      if useKeyIndex {
        keyIndex := Without(keyIndex, name);
      }
    }

    method DeleteMany(names: seq<string>)
      requires Valid()
      modifies this
      ensures Valid()
      ensures Contents() == R.DeleteMany(old(Contents()), names, useKeyIndex)
    {
      if |names| == 0 {
        assert (set n | n in names) == {};
        return;
      }
      DeleteInBatches(names, batchSize);
      if useKeyIndex {
        LeaveIndex(names);
      }
    }

    /** `SREM` of several keys from the key index. */
    method LeaveIndex(names: seq<string>)
      modifies this`keyIndex
      ensures keyIndex == R.WithoutAll(old(keyIndex), names)
    {
      var i := 0;
      while i < |names|
        invariant i <= |names| && keyIndex == R.WithoutAll(old(keyIndex), names[..i])
      {
        FrontOf(names, i);
        keyIndex := Without(keyIndex, names[i]);
        i := i + 1;
      }
      assert names[..|names|] == names;
    }

    /** `clear` for a client that cannot scan: by the key index, in batches. */
    method ClearByIndex(prefix: string) returns (count: nat)
      requires Valid() && useKeyIndex
      modifies this
      ensures Valid()
      ensures Contents() == R.ClearIndexed(old(Contents()), prefix) && count == |R.Matching(old(keyIndex), prefix)|
    {
      var matched := R.Matching(keyIndex, prefix);
      DeleteInBatches(matched, batchSize);
      if |matched| > 0 {
        LeaveIndex(matched);
      }
      count := |matched|;
    }

    method AddTags(name: string, tags: seq<string>, scope: Option<string>)
      requires Valid()
      modifies this
      ensures Valid()
      ensures Contents() == R.AddTags(old(Contents()), name,
              R.TagIds(if scope.Some? then scope.value else namespace, tags))
    {
      if |tags| == 0 {
        return;
      }
      var ids := R.TagIds(if scope.Some? then scope.value else namespace, tags);
      R.RefsNotEmpty(refs, name, ids);
      JoinTags(ids, name);
      NoteTags(name, ids);
    }

    method InvalidateTag(tag: string, scope: Option<string>)
      requires Valid()
      modifies this
      ensures Valid()
      ensures Contents() == R.InvalidateTag(old(Contents()),
              R.TagId(if scope.Some? then scope.value else namespace, tag))
    {
      var id := R.TagId(if scope.Some? then scope.value else namespace, tag);
      if hasEval {
        var _ := InvalidateTagScript(id);
        return;
      }
      var members := R.Members(tagSets, id);
      DeleteInBatches(members, batchSize);
      tagSets := tagSets - {id};
    }

    // ----- Locks

    /** `SET name token NX PX`: granted exactly when no value is stored under the name. */
    method AcquireLock(name: string, token: string, ttlMs: int, now: int) returns (granted: bool)
      modifies this`store
      ensures granted <==> R.Lookup(old(store), name, now).None?
      ensures store == if granted then old(store)[name := R.Stored(R.Foreign(token), At(now + R.AtLeastOne(ttlMs)))]
              else old(store)
    {
      if R.Lookup(store, name, now).Some? {
        return false;
      }
      store := store[name := R.Stored(R.Foreign(token), At(now + R.AtLeastOne(ttlMs)))];
      granted := true;
    }

    /** With or without the script, a token that no longer matches releases nothing. */
    method ReleaseLock(name: string, token: string, now: int)
      modifies this`store
      ensures store == if R.Lookup(old(store), name, now) == Some(R.Foreign(token)) then old(store) - {name}
              else old(store)
    {
      if hasEval {
        var _ := ReleaseLockScript(name, token, now);
        return;
      }
      var current := R.Lookup(store, name, now);
      if current.Some? && current.value.Foreign? && current.value.text == token {
        store := store - {name};
      }
    }

    method ExtendLock(name: string, token: string, ttlMs: int, now: int) returns (ok: bool)
      modifies this`store
      ensures ok <==> R.Lookup(old(store), name, now) == Some(R.Foreign(token))
      ensures store == if ok then old(store)[name := R.Stored(R.Foreign(token), At(now + R.AtLeastOne(ttlMs)))]
              else old(store)
    {
      var current := R.Lookup(store, name, now);
      if !(current.Some? && current.value.Foreign? && current.value.text == token) {
        return false;
      }
      store := store[name := R.Stored(current.value, At(now + R.AtLeastOne(ttlMs)))];
      ok := true;
    }
  }

  lemma NothingNoted(refs: map<string, seq<R.TagId>>, name: string)
    ensures name !in refs ==> refs - {name} == refs
  {
  }

  /** Emptying a reverse set member by member or at once comes to the same. */
  lemma RewrittenRefs(refs: map<string, seq<R.TagId>>, bare: map<string, seq<R.TagId>>, name: string, ids: seq<R.TagId>)
    requires bare == if |R.RefsOf(refs, name)| > 0 then refs - {name} else refs
    requires name in refs ==> refs[name] != []
    ensures R.SaddRefs(bare, name, ids) == R.SaddRefs(refs - {name}, name, ids)
  {
    assert bare == refs - {name};
  }
}
