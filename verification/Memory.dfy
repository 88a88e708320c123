/**
 * The process-local storage (src/memory.ts): each method is shown to compute the function of the contents
 * that specifies it, with a running byte count that always equals the sum of the stored sizes. The clock
 * reading is a parameter.
 */
module Memory {
  import opened Wrappers
  import opened Lists
  import opened Strings
  import opened Entries
  import M = MemoryShelf
  import Kept = MemoryInvariants

  datatype Lock = Lock(token: string, expiresAt: int)

  // ----- Steps of the loops

  lemma UnregisterStep(index: map<string, seq<string>>, key: string, tags: seq<string>, i: nat)
    requires i < |tags|
    ensures var cur := M.Unregister(index, key, tags[..i]);
            var t := tags[i];
            M.Unregister(index, key, tags[..i + 1]) ==
            if t !in cur then cur
            else if Without(cur[t], key) == [] then cur - {t} else cur[t := Without(cur[t], key)]
  {
    hide Without;
    var t := tags[i];
    assert tags[..i + 1] == tags[..i] + [t];
    if t in index { WithoutTwice(index[t], key); }
  }

  lemma TrimStep(s: seq<string>, limit: nat)
    requires |s| > limit
    ensures M.Trimmed(s, limit) == M.Trimmed(s[1..], limit)
  {
  }

  lemma RegisterStep(index: map<string, seq<string>>, key: string, tags: seq<string>, limit: nat, i: nat)
    requires i < |tags| && forall t :: t in index ==> key !in index[t]
    ensures var cur := M.Register(index, key, tags[..i], limit);
            var t := tags[i];
            M.Register(index, key, tags[..i + 1], limit) == cur[t := M.Trimmed(Added(M.Registered(cur, t), key), limit)]
  {
    hide M.Trimmed, Added;
    var t := tags[i];
    assert tags[..i + 1] == tags[..i] + [t];
    AddTwice(M.Registered(index, t), key, limit);
  }

  lemma AddTwice(s: seq<string>, key: string, limit: nat)
    requires key !in s
    ensures var once := M.Trimmed(Added(s, key), limit); M.Trimmed(Added(once, key), limit) == once
  {
    var once := M.Trimmed(s + [key], limit);
    if limit > 0 { assert once[|once| - 1] == key; }
  }

  lemma AddToIndexStep(index: map<string, seq<string>>, key: string, tags: seq<string>, i: nat)
    requires i < |tags|
    ensures var cur := M.AddToIndex(index, key, tags[..i]);
            var t := tags[i];
            M.AddToIndex(index, key, tags[..i + 1]) == cur[t := Added(M.Registered(cur, t), key)]
  {
    var t := tags[i];
    assert tags[..i + 1] == tags[..i] + [t];
  }

  lemma RemoveAllStep(s: M.Shelf, keys: seq<string>, i: nat)
    requires i < |keys|
    ensures M.RemoveAll(s, keys[..i + 1]) == M.Remove(M.RemoveAll(s, keys[..i]), keys[i])
  {
    assert keys[..i + 1][..i] == keys[..i];
  }

  lemma ExpiredStep(s: M.Shelf, keys: seq<string>, i: nat, now: int)
    requires i < |keys|
    ensures M.ExpiredKeys(s, keys[..i + 1], now) ==
      M.ExpiredKeys(s, keys[..i], now) + if M.Outlived(s, keys[i], now) then [keys[i]] else []
  {
    assert keys[..i + 1][..i] == keys[..i];
  }

  lemma PrefixStep(keys: seq<string>, prefix: string, i: nat)
    requires i < |keys|
    ensures M.PrefixedKeys(keys[..i + 1], prefix) ==
      M.PrefixedKeys(keys[..i], prefix) + if StartsWith(keys[i], prefix) then [keys[i]] else []
  {
    assert keys[..i + 1][..i] == keys[..i];
  }

  lemma AppendRemoved(s: M.Shelf, keys: seq<string>, key: string)
    ensures M.RemoveAll(s, keys + [key]) == M.Remove(M.RemoveAll(s, keys), key)
  {
    assert (keys + [key])[..|keys|] == keys;
  }

  /** The oldest members go until the limit is met. */
  method DropOldest(all: seq<string>, limit: nat) returns (keys: seq<string>)
    ensures keys == M.Trimmed(all, limit)
  {
    hide M.Trimmed;
    keys := all;
    while |keys| > limit
      invariant M.Trimmed(keys, limit) == M.Trimmed(all, limit)
      decreases |keys|
    {
      TrimStep(keys, limit);
      keys := keys[1..];
    }
    TrimDone(keys, limit);
  }

  class MemoryStorage {
    const config: M.Config
    var order: seq<string>
    var records: map<string, M.Record>
    var tagIndex: map<string, seq<string>>
    var bytes: int
    var lastSweep: int
    var locks: map<string, Lock>

    ghost function Contents(): M.Shelf
      reads this
    {
      M.Shelf(order, records, tagIndex)
    }

    ghost function View(): M.State
      reads this
    {
      M.State(Contents(), lastSweep)
    }

    /** The bookkeeping is in order and the byte count is exact. */
    ghost predicate Consistent()
      reads this
    {
      Kept.Good(Contents()) && bytes == M.Total(order, records)
    }

    /** Between operations both budgets hold as well. */
    ghost predicate Valid()
      reads this
    {
      Consistent() && M.Fits(config, Contents())
    }

    constructor (c: M.Config)
      ensures Valid() && config == c && View() == M.State(M.EMPTY, 0) && locks == map[]
    {
      config := c;
      order, records, tagIndex, locks := [], map[], map[], map[];
      bytes, lastSweep := 0, 0;
    }

    method UnregisterTags(key: string, tags: seq<string>)
      modifies this`tagIndex
      ensures tagIndex == M.Unregister(old(tagIndex), key, tags)
    {
      var i := 0;
      assert M.Unregister(tagIndex, key, tags[..0]) == tagIndex;
      while i < |tags|
        invariant i <= |tags|
        invariant tagIndex == M.Unregister(old(tagIndex), key, tags[..i])
      {
        UnregisterStep(old(tagIndex), key, tags, i);
        var tag := tags[i];
        if tag in tagIndex {
          var rest := Without(tagIndex[tag], key);
          tagIndex := tagIndex[tag := rest];
          if rest == [] {
            tagIndex := tagIndex - {tag};
            assert tagIndex == M.Unregister(old(tagIndex), key, tags[..i]) - {tag};
          }
        }
        i := i + 1;
      }
      assert tags[..|tags|] == tags;
    }

    method Remove(key: string)
      requires Consistent()
      modifies this`order, this`records, this`tagIndex, this`bytes
      ensures Consistent() && Contents() == M.Remove(old(Contents()), key)
      ensures old(M.Fits(config, Contents())) ==> M.Fits(config, Contents())
    {
      hide M.Unregister, Without, Kept.Good, M.Total, NoDup;
      ghost var before := Contents();
      assert M.Listed(before) by { Kept.GoodListed(before); }
      Kept.RemoveGood(before, key);
      if M.Fits(config, before) { Kept.RemoveFits(config, before, key); }
      if key !in records {
        return;
      }
      M.TotalWithout(order, records, key);
      var record := records[key];
      order, records := Without(order, key), records - {key};
      bytes := bytes - record.size;
      UnregisterTags(key, record.tags);
    }

    method Read(key: string, now: int) returns (record: Option<M.Record>)
      requires Consistent()
      modifies this`order, this`records, this`tagIndex, this`bytes
      ensures Consistent() && (record, Contents()) == M.Read(old(Contents()), key, now)
      ensures old(M.Fits(config, Contents())) ==> M.Fits(config, Contents())
    {
      hide Kept.Good, M.Total, M.Remove, M.Fits;
      if key !in records {
        return None;
      }
      var found := records[key];
      if !Before(now, RetentionDeadline(found.entry.expiresAt, found.entry.staleUntil)) {
        Remove(key);
        return None;
      }
      record := Some(found);
    }

    method Sweep(now: int)
      requires Valid()
      modifies this
      ensures Valid() && View() == M.State(M.Sweep(old(Contents()), now), now)
      ensures locks == LiveLocks(old(locks), now)
    {
      hide Kept.Good, M.Total, M.Remove, M.RemoveAll, M.Fits;
      lastSweep := now;
      var keys, i := order, 0;
      ghost var start := Contents();
      ghost var gone: seq<string> := [];
      Kept.GoodListed(start);
      NothingToRemove(start);
      while i < |keys|
        invariant i <= |keys| && Valid() && lastSweep == now && locks == old(locks)
        invariant gone == M.ExpiredKeys(start, keys[..i], now) && Contents() == M.RemoveAll(start, gone)
      {
        ExpiredStep(start, keys, i, now);
        StillThere(start, keys, i, gone, now);
        var key := keys[i];
        if key in records && !Live(records[key].entry, now) {
          AppendRemoved(start, gone, key);
          Remove(key);
          gone := gone + [key];
        }
        i := i + 1;
      }
      assert keys[..|keys|] == keys;
      SweepLocks(now);
    }

    method SweepLocks(now: int)
      modifies this`locks
      ensures locks == LiveLocks(old(locks), now)
    {
      var pending := locks.Keys;
      while pending != {}
        invariant pending <= locks.Keys <= old(locks).Keys
        invariant forall k :: k in locks ==> locks[k] == old(locks)[k]
        invariant forall k :: k in old(locks) && k !in pending ==> (k in locks <==> now < old(locks)[k].expiresAt)
        decreases pending
      {
        var key :| key in pending;
        pending := pending - {key};
        if now >= locks[key].expiresAt {
          locks := locks - {key};
        }
      }
    }

    method MaybeSweep(now: int)
      requires Valid()
      modifies this
      ensures Valid() && View() == M.MaybeSweep(config, old(View()), now)
      ensures locks == if config.sweeps && now - old(lastSweep) >= config.interval then LiveLocks(old(locks), now)
              else old(locks)
    {
      hide Kept.Good, M.Total, M.Sweep, M.Fits;
      if config.sweeps {
        if now - lastSweep >= config.interval {
          Sweep(now);
        }
      }
    }

    method EnforceBudgets()
      requires Consistent()
      modifies this`order, this`records, this`tagIndex, this`bytes
      ensures Valid() && Contents() == M.Enforce(config, old(Contents()))
    {
      hide Kept.Good, M.Total, M.Remove;
      ghost var start := Contents();
      Kept.GoodListed(start);
      if |order| <= config.maxEntries && bytes <= config.maxSizeBytes {
        return;
      }
      var keys, i := order, 0;
      while i < |keys|
        invariant i <= |keys| && Consistent() && order == keys[i..] && M.Listed(Contents())
        invariant M.Enforce(config, Contents()) == M.Enforce(config, start)
      {
        if |order| <= config.maxEntries && bytes <= config.maxSizeBytes {
          break;
        }
        Kept.FirstRemoved(Contents());
        M.RemoveListed(Contents(), order[0]);
        Remove(keys[i]);
        i := i + 1;
      }
      EnforceDone(config, Contents());
    }

    method Write(key: string, entry: CacheEntry)
      requires Consistent()
      modifies this`order, this`records, this`tagIndex, this`bytes
      ensures M.Listed(old(Contents())) && Valid() && Contents() == M.Write(config, old(Contents()), key, entry)
    {
      hide Kept.Good, M.Total, M.Enforce, M.Fits, M.Remove, M.Register;
      ghost var start := Contents();
      Kept.GoodListed(start);
      Remove(key);
      ghost var base := Contents();
      Kept.PlaceGood(config, start, key, entry);
      M.PlaceListed(config, start, key, entry);
      Kept.NotRegistered(start, key);
      Kept.NotListed(start, key);
      var size := MeasureEntry(entry);
      PlaceTotal(base, key, M.Record(entry, size, TagsOf(entry)));
      order, records := order + [key], records[key := M.Record(entry, size, TagsOf(entry))];
      bytes := bytes + size;
      if entry.tags.Some? {
        RegisterTags(key, entry.tags.value);
      } else {
        NoTagsToRegister(tagIndex, key, config.tagIndexLimit);
      }
      EnforceBudgets();
    }

    method RegisterTags(key: string, tags: seq<string>)
      requires forall t :: t in tagIndex ==> key !in tagIndex[t]
      modifies this`tagIndex
      ensures tagIndex == M.Register(old(tagIndex), key, tags, config.tagIndexLimit)
    {
      hide M.Trimmed, Added, M.Register;
      var i := 0;
      NoTagsToRegister(tagIndex, key, config.tagIndexLimit);
      assert tags[..0] == [];
      while i < |tags|
        invariant i <= |tags| && tagIndex == M.Register(old(tagIndex), key, tags[..i], config.tagIndexLimit)
      {
        RegisterStep(old(tagIndex), key, tags, config.tagIndexLimit, i);
        var keys := DropOldest(Added(M.Registered(tagIndex, tags[i]), key), config.tagIndexLimit);
        tagIndex := tagIndex[tags[i] := keys];
        i := i + 1;
      }
      assert tags[..|tags|] == tags;
    }

    // ----- The storage interface

    method Get(key: string, now: int) returns (entry: Option<CacheEntry>)
      requires Valid()
      modifies this
      ensures Valid() && (entry, View()) == M.Get(config, old(View()), key, now)
    {
      hide Kept.Good, M.Total, M.Remove, M.Fits, M.MaybeSweep;
      MaybeSweep(now);
      var record := Read(key, now);
      if record.None? {
        return None;
      }
      if config.updateAgeOnGet {
        Kept.TouchKeeps(config, Contents(), key);
        order := Without(order, key) + [key];
      }
      entry := Some(record.value.entry);
    }

    method Has(key: string, now: int) returns (found: bool)
      requires Valid()
      modifies this
      ensures Valid() && (found, View()) == M.Has(old(View()), key, now)
    {
      hide Kept.Good, M.Total, M.Remove, M.Fits;
      var record := Read(key, now);
      found := record.Some?;
    }

    method Set(key: string, entry: CacheEntry, onlyIfNewer: bool, now: int)
      requires Valid()
      modifies this
      ensures Valid() && M.Listed(old(Contents())) && View() == M.Set(config, old(View()), key, entry, onlyIfNewer, now)
    {
      hide Kept.Good, M.Total, M.Remove, M.Fits, M.MaybeSweep, M.Write;
      Kept.GoodListed(Contents());
      M.SweepListed(config, View(), now);
      MaybeSweep(now);
      if onlyIfNewer {
        var existing := Read(key, now);
        if existing.Some? && existing.value.entry.revision >= entry.revision {
          return;
        }
      }
      Write(key, entry);
    }

    method CompareAndSet(key: string, entry: CacheEntry, expected: Option<int>, now: int) returns (ok: bool)
      requires Valid()
      modifies this
      ensures Valid() && M.Listed(old(Contents())) && (ok, View())
              == M.CompareAndSet(config, old(View()), key, entry, expected, now)
    {
      hide Kept.Good, M.Total, M.Remove, M.Fits, M.MaybeSweep, M.Write;
      Kept.GoodListed(Contents());
      M.SweepListed(config, View(), now);
      MaybeSweep(now);
      var existing := Read(key, now);
      var current := if existing.Some? then Some(existing.value.entry.revision) else None;
      if current != expected {
        return false;
      }
      Write(key, entry);
      ok := true;
    }

    method Delete(key: string)
      requires Valid()
      modifies this
      ensures Valid() && Contents() == M.Remove(old(Contents()), key) && lastSweep == old(lastSweep)
              && locks == old(locks)
    {
      Remove(key);
    }

    method DeleteMany(keys: seq<string>)
      requires Valid()
      modifies this
      ensures Valid() && Contents() == M.RemoveAll(old(Contents()), keys) && lastSweep == old(lastSweep)
              && locks == old(locks)
    {
      hide Kept.Good, M.Total, M.Remove, M.Fits, M.RemoveAll;
      var i := 0;
      NothingToRemove(Contents());
      assert keys[..0] == [];
      while i < |keys|
        invariant i <= |keys| && Valid() && lastSweep == old(lastSweep) && locks == old(locks)
        invariant Contents() == M.RemoveAll(old(Contents()), keys[..i])
      {
        RemoveAllStep(old(Contents()), keys, i);
        Remove(keys[i]);
        i := i + 1;
      }
      assert keys[..|keys|] == keys;
    }

    method Clear(prefix: Option<string>)
      requires Valid()
      modifies this
      ensures Valid() && Contents() == M.Clear(old(Contents()), prefix) && lastSweep == old(lastSweep)
      ensures locks == if prefix.None? then map[] else old(locks)
    {
      hide Kept.Good, M.Total, M.Remove, M.Fits, M.RemoveAll, StartsWith;
      var keys, i := order, 0;
      ghost var start := Contents();
      ghost var gone: seq<string> := [];
      NothingToRemove(start);
      while i < |keys|
        invariant i <= |keys| && Valid() && lastSweep == old(lastSweep) && locks == old(locks)
        invariant gone == if prefix.None? then keys[..i] else M.PrefixedKeys(keys[..i], prefix.value)
        invariant Contents() == M.RemoveAll(start, gone)
      {
        if prefix.Some? { PrefixStep(keys, prefix.value, i); }
        if prefix.None? || StartsWith(keys[i], prefix.value) {
          AppendRemoved(start, gone, keys[i]);
          Remove(keys[i]);
          gone := gone + [keys[i]];
        }
        i := i + 1;
      }
      assert keys[..|keys|] == keys;
      Kept.ClearGood(start, prefix);
      if prefix.None? {
        Kept.GoodListed(Contents());
        FitsIgnoresIndex(config, Contents(), map[]);
        tagIndex := map[];
        locks := map[];
      }
    }

    method AddTags(key: string, tags: seq<string>)
      requires Valid()
      modifies this
      ensures Valid() && Contents() == M.AddTags(old(Contents()), key, tags) && lastSweep == old(lastSweep)
              && locks == old(locks)
    {
      hide Kept.Good, M.AddToIndex, M.Registered, Added, M.Deduped;
      if key !in records {
        return;
      }
      Kept.AddTagsGood(Contents(), key, tags);
      ghost var start := Contents();
      var i := 0;
      NoTagsToAdd(tagIndex, key);
      assert tags[..0] == [];
      while i < |tags|
        invariant i <= |tags| && tagIndex == M.AddToIndex(start.index, key, tags[..i])
        invariant order == start.order && records == start.records && bytes == old(bytes)
                  && lastSweep == old(lastSweep) && locks == old(locks)
      {
        AddToIndexStep(start.index, key, tags, i);
        tagIndex := tagIndex[tags[i] := Added(M.Registered(tagIndex, tags[i]), key)];
        i := i + 1;
      }
      assert tags[..|tags|] == tags;
      var record := records[key];
      records := records[key := record.(tags := M.Deduped(record.tags + tags))];
      Kept.GoodListed(start);
      M.TotalSame(order, start.records, records);
    }

    method InvalidateTag(tag: string)
      requires Valid()
      modifies this
      ensures Valid() && Contents() == M.InvalidateTag(old(Contents()), tag) && lastSweep == old(lastSweep)
              && locks == old(locks)
    {
      hide Kept.Good, M.Total, M.Remove, M.Fits, M.RemoveAll;
      if tag !in tagIndex {
        return;
      }
      ghost var start := Contents();
      Kept.InvalidateGood(start, tag);
      var keys := tagIndex[tag];
      DeleteMany(keys);
      Kept.GoodListed(Contents());
      FitsIgnoresIndex(config, Contents(), tagIndex - {tag});
      tagIndex := tagIndex - {tag};
    }

    // ----- Locks

    /** A lock is granted exactly when there is no unexpired one; the holder is told by its token. */
    method AcquireLock(key: string, token: string, ttlMs: int, now: int) returns (granted: bool)
      modifies this`locks
      ensures granted <==> !(key in old(locks) && now < old(locks)[key].expiresAt)
      ensures locks == if granted then old(locks)[key := Lock(token, now + ttlMs)] else old(locks)
    {
      if key in locks && now < locks[key].expiresAt {
        return false;
      }
      locks := locks[key := Lock(token, now + ttlMs)];
      granted := true;
    }

    /** A stale token releases nothing. */
    method Release(key: string, token: string)
      modifies this`locks
      ensures locks == if key in old(locks) && old(locks)[key].token == token then old(locks) - {key} else old(locks)
    {
      if key in locks && locks[key].token == token {
        locks := locks - {key};
      }
    }

    method Extend(key: string, token: string, ttlMs: int, now: int) returns (ok: bool)
      modifies this`locks
      ensures ok <==> key in old(locks) && old(locks)[key].token == token
      ensures locks == if ok then old(locks)[key := Lock(token, now + ttlMs)] else old(locks)
    {
      if key !in locks || locks[key].token != token {
        return false;
      }
      locks := locks[key := Lock(token, now + ttlMs)];
      ok := true;
    }
  }

  function LiveLocks(locks: map<string, Lock>, now: int): map<string, Lock> {
    map k | k in locks && now < locks[k].expiresAt :: locks[k]
  }

  /** Exactly the locks that have not expired are kept. */
  lemma LiveLocksAre(locks: map<string, Lock>, now: int, k: string)
    ensures k in LiveLocks(locks, now) <==> k in locks && locks[k].expiresAt > now
    ensures k in LiveLocks(locks, now) ==> LiveLocks(locks, now)[k] == locks[k]
  {
  }

  lemma NothingToRemove(s: M.Shelf)
    ensures M.RemoveAll(s, []) == s
  {
  }

  lemma StillThere(s: M.Shelf, keys: seq<string>, i: nat, gone: seq<string>, now: int)
    requires i < |keys| && NoDup(keys) && gone == M.ExpiredKeys(s, keys[..i], now)
    ensures var cur := M.RemoveAll(s, gone).records;
            keys[i] in cur && !Live(cur[keys[i]].entry, now) <==> M.Outlived(s, keys[i], now)
  {
    hide M.RemoveAll, M.ExpiredKeys, Live;
    Kept.RemoveAllRecords(s, gone);
    Kept.ExpiredAre(s, keys[..i], now);
  }

  lemma EnforceDone(c: M.Config, s: M.Shelf)
    requires M.Listed(s) && (M.Fits(c, s) || s.order == [])
    ensures M.Enforce(c, s) == s && M.Fits(c, s)
  {
  }

  lemma FitsIgnoresIndex(c: M.Config, s: M.Shelf, index: map<string, seq<string>>)
    requires M.Listed(s)
    ensures M.Listed(s.(index := index)) && M.Fits(c, s.(index := index)) == M.Fits(c, s)
  {
  }

  lemma PlaceTotal(s: M.Shelf, key: string, record: M.Record)
    requires M.Listed(s) && key !in s.order
    ensures forall k :: k in s.order + [key] ==> k in s.records[key := record]
    ensures M.Total(s.order + [key], s.records[key := record]) == M.Total(s.order, s.records) + record.size
  {
    hide M.Total;
    M.TotalSame(s.order, s.records, s.records[key := record]);
    M.TotalAppend(s.order, s.records[key := record], key);
  }

  lemma NoTagsToRegister(index: map<string, seq<string>>, key: string, limit: nat)
    ensures M.Register(index, key, [], limit) == index
  {
  }

  lemma NoTagsToAdd(index: map<string, seq<string>>, key: string)
    ensures M.AddToIndex(index, key, []) == index
  {
  }

  lemma TrimDone(s: seq<string>, limit: nat)
    requires |s| <= limit
    ensures M.Trimmed(s, limit) == s
  {
  }
}
