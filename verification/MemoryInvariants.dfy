/** What every operation of the memory storage keeps: the tag index mirrors the records, and both budgets hold. */
module MemoryInvariants {
  import opened Wrappers
  import opened Lists
  import opened Strings
  import opened Entries
  import opened MemoryShelf

  // ----- The reverse tag index

  predicate Carries(s: Shelf, key: string, tag: string) {
    key in s.records && tag in s.records[key].tags
  }

  /** Every registered key carries the tag. */
  predicate IndexSound(s: Shelf) {
    forall t :: t in s.index ==> NoDup(s.index[t]) && forall k :: k in s.index[t] ==> Carries(s, k, t)
  }

  /** Every key that carries a tag is registered for it. */
  predicate IndexComplete(s: Shelf) {
    forall k :: k in s.records ==> forall t :: t in s.records[k].tags ==> t in s.index && k in s.index[t]
  }

  predicate Sized(s: Shelf) {
    forall k :: k in s.records ==> s.records[k].size == EntrySize(s.records[k].entry)
  }

  predicate Good(s: Shelf) {
    Listed(s) && IndexSound(s) && Sized(s)
  }

  lemma GoodListed(s: Shelf)
    requires Good(s)
    ensures Listed(s)
  {
  }

  lemma RemoveSound(s: Shelf, key: string)
    requires IndexSound(s)
    ensures IndexSound(Remove(s, key))
    ensures forall t :: t in Remove(s, key).index ==> key !in Remove(s, key).index[t]
  {
    var r := Remove(s, key);
    forall t | t in r.index
      ensures key !in r.index[t] && NoDup(r.index[t]) && forall k :: k in r.index[t] ==> Carries(r, k, t)
    {
      assert t in s.index;
      if key in s.records { WithoutNoDup(s.index[t], key); }
      assert key in s.index[t] ==> Carries(s, key, t);
      assert forall k :: k in r.index[t] ==> k in s.index[t] && Carries(s, k, t);
    }
  }

  lemma NotRegistered(s: Shelf, key: string)
    requires Good(s)
    ensures forall t :: t in Remove(s, key).index ==> key !in Remove(s, key).index[t]
  {
    RemoveSound(s, key);
  }

  lemma NotListed(s: Shelf, key: string)
    requires Listed(s)
    ensures Listed(Remove(s, key)) && key !in Remove(s, key).order && key !in Remove(s, key).records
  {
    hide Unregister;
    RemoveListed(s, key);
  }

  lemma RemoveComplete(s: Shelf, key: string)
    requires IndexComplete(s)
    ensures IndexComplete(Remove(s, key))
  {
    hide NoDup;
    var r := Remove(s, key);
    forall k, t | k in r.records && t in r.records[k].tags ensures t in r.index && k in r.index[t] {
      assert k in s.records && t in s.records[k].tags;
      if key in s.records { assert k in Without(s.index[t], key); }
    }
  }

  lemma RemoveGood(s: Shelf, key: string)
    requires Good(s)
    ensures Good(Remove(s, key))
  {
    hide Listed, IndexSound, Unregister, Without;
    RemoveListed(s, key);
    RemoveSound(s, key);
  }

  lemma {:induction false} RemoveAllGood(s: Shelf, keys: seq<string>)
    requires Good(s)
    ensures Good(RemoveAll(s, keys)) && (IndexComplete(s) ==> IndexComplete(RemoveAll(s, keys)))
  {
    hide Good, IndexComplete, Remove;
    if keys != [] {
      var before := RemoveAll(s, keys[..|keys| - 1]);
      RemoveAllGood(s, keys[..|keys| - 1]);
      RemoveGood(before, keys[|keys| - 1]);
      if IndexComplete(before) { RemoveComplete(before, keys[|keys| - 1]); }
    }
  }

  /** Removing keys removes their records and no others. */
  lemma {:induction false} RemoveAllRecords(s: Shelf, keys: seq<string>)
    ensures RemoveAll(s, keys).records == s.records - (set k | k in keys)
  {
    hide Unregister, Without;
    if keys != [] {
      var front, last := keys[..|keys| - 1], keys[|keys| - 1];
      RemoveAllRecords(s, front);
      assert keys == front + [last];
      assert (set k | k in keys) == (set k | k in front) + {last};
    } else {
      assert (set k | k in keys) == {};
    }
  }

  lemma RegisterSound(s: Shelf, index: map<string, seq<string>>, key: string, tags: seq<string>, limit: nat)
    requires key in s.records && s.records[key].tags == tags
    requires forall t :: t in index ==>
                           key !in index[t] && NoDup(index[t])
                           && forall k :: k in index[t] ==> Carries(s, k, t)
    ensures IndexSound(s.(index := Register(index, key, tags, limit)))
  {
    var s' := s.(index := Register(index, key, tags, limit));
    forall t | t in s'.index ensures NoDup(s'.index[t]) && forall k :: k in s'.index[t] ==> Carries(s', k, t) {
      if t in tags {
        var all := Registered(index, t) + [key];
        assert NoDup(all) && forall i :: 0 <= i < |all| ==> Carries(s, all[i], t);
        TrimmedPart(all, limit);
      }
    }
  }

  lemma TrimmedPart(s: seq<string>, limit: nat)
    requires NoDup(s)
    ensures NoDup(Trimmed(s, limit)) && forall k :: k in Trimmed(s, limit) ==> k in s
  {
    var d := if |s| > limit then |s| - limit else 0;
    var r := s[d..];
    assert forall i :: 0 <= i < |r| ==> r[i] == s[d + i];
    assert Trimmed(s, limit) == r;
  }

  lemma PlaceGood(c: Config, s: Shelf, key: string, entry: CacheEntry)
    requires Good(s)
    ensures Good(Place(c, s, key, entry))
  {
    hide Register, Unregister, Without, NoDup;
    var base, s' := Remove(s, key), Place(c, s, key, entry);
    PlaceListed(c, s, key, entry);
    RemoveSound(s, key);
    assert Sized(s');
    forall t | t in base.index
      ensures key !in base.index[t] && NoDup(base.index[t]) && forall k :: k in base.index[t] ==> Carries(s', k, t)
    {
      assert forall k :: k in base.index[t] ==> Carries(base, k, t) && k != key;
    }
    RegisterSound(s', base.index, key, TagsOf(entry), c.tagIndexLimit);
  }

  /** A tag set would hold more than its limit. */
  predicate Overflows(c: Config, s: Shelf, key: string, entry: CacheEntry) {
    exists t :: t in TagsOf(entry) && |Added(Registered(Remove(s, key).index, t), key)| > c.tagIndexLimit
  }

  lemma PlaceComplete(c: Config, s: Shelf, key: string, entry: CacheEntry)
    requires IndexComplete(s) && !Overflows(c, s, key, entry)
    ensures IndexComplete(Place(c, s, key, entry))
  {
    hide Without, Unregister;
    var base, s' := Remove(s, key), Place(c, s, key, entry);
    RemoveComplete(s, key);
    forall k, t | k in s'.records && t in s'.records[k].tags ensures t in s'.index && k in s'.index[t] {
      if t in TagsOf(entry) {
        assert s'.index[t] == Added(Registered(base.index, t), key);
      }
      if k != key { assert k in base.records && t in base.records[k].tags; }
    }
  }

  lemma {:induction false} EnforceKeeps(c: Config, s: Shelf)
    requires Good(s)
    ensures Good(Enforce(c, s)) && Fits(c, Enforce(c, s)) && (IndexComplete(s) ==> IndexComplete(Enforce(c, s)))
    decreases |s.order|
  {
    hide Remove, Sized, IndexSound, IndexComplete;
    if !Fits(c, s) && s.order != [] {
      var r := Remove(s, s.order[0]);
      RemoveGood(s, s.order[0]);
      FirstRemoved(s);
      if IndexComplete(s) { RemoveComplete(s, s.order[0]); }
      EnforceKeeps(c, r);
    }
  }

  lemma FirstRemoved(s: Shelf)
    requires Listed(s) && s.order != []
    ensures Remove(s, s.order[0]).order == s.order[1..]
  {
    hide Unregister;
    assert s.order[0] !in s.order[1..];
    WithoutAbsent(s.order[1..], s.order[0]);
    assert [] + s.order[1..] == s.order[1..];
  }

  /** After every write both budgets hold and the bookkeeping is in order. */
  lemma WriteKeeps(c: Config, s: Shelf, key: string, entry: CacheEntry)
    requires Good(s)
    ensures Good(Write(c, s, key, entry)) && Fits(c, Write(c, s, key, entry))
    ensures IndexComplete(s) && !Overflows(c, s, key, entry) ==> IndexComplete(Write(c, s, key, entry))
  {
    hide Place, Enforce, IndexSound, IndexComplete, Sized, Overflows;
    PlaceGood(c, s, key, entry);
    EnforceKeeps(c, Place(c, s, key, entry));
    if IndexComplete(s) && !Overflows(c, s, key, entry) { PlaceComplete(c, s, key, entry); }
  }

  /** With fewer entries than the index limit nothing is ever trimmed. */
  lemma NeverOverflows(c: Config, s: Shelf, key: string, entry: CacheEntry)
    requires Good(s) && Fits(c, s) && c.maxEntries < c.tagIndexLimit
    ensures !Overflows(c, s, key, entry)
  {
    hide Unregister, Sized;
    var base := Remove(s, key);
    RemoveListed(s, key);
    RemoveSound(s, key);
    forall t | t in TagsOf(entry) ensures |Added(Registered(base.index, t), key)| <= c.tagIndexLimit {
      var keys := Registered(base.index, t);
      assert NoDup(keys);
      assert forall k :: k in keys ==> Carries(base, k, t) && k in base.order;
      PartNoLonger(keys, base.order);
    }
  }

  // ----- More tags, invalidation, clearing

  lemma AddTagsGood(s: Shelf, key: string, tags: seq<string>)
    requires Good(s)
    ensures Good(AddTags(s, key, tags)) && (IndexComplete(s) ==> IndexComplete(AddTags(s, key, tags)))
  {
    if key in s.records {
      AddTagsListed(s, key, tags);
      AddTagsSound(s, key, tags);
      if IndexComplete(s) { AddTagsComplete(s, key, tags); }
    }
  }

  lemma AddTagsListed(s: Shelf, key: string, tags: seq<string>)
    requires Listed(s) && Sized(s) && key in s.records
    ensures Listed(AddTags(s, key, tags)) && Sized(AddTags(s, key, tags))
  {
    hide AddToIndex, NoDup, Deduped;
  }

  lemma AddTagsSound(s: Shelf, key: string, tags: seq<string>)
    requires IndexSound(s) && key in s.records
    ensures IndexSound(AddTags(s, key, tags))
  {
    hide Deduped;
    var r := AddTags(s, key, tags);
    forall t | t in r.index ensures NoDup(r.index[t]) && forall k :: k in r.index[t] ==> Carries(r, k, t) {
      assert t in s.index ==> forall k :: k in s.index[t] ==> Carries(s, k, t);
      var all := Registered(s.index, t);
      assert NoDup(all);
      if t in tags && key !in all {
        assert NoDup(all + [key]);
      }
    }
  }

  lemma AddTagsComplete(s: Shelf, key: string, tags: seq<string>)
    requires IndexComplete(s) && key in s.records
    ensures IndexComplete(AddTags(s, key, tags))
  {
    hide Deduped, NoDup;
    var r := AddTags(s, key, tags);
    forall k, t | k in r.records && t in r.records[k].tags ensures t in r.index && k in r.index[t] {
      if k == key && t !in s.records[key].tags { assert t in tags; }
      else { assert t in s.records[k].tags; }
    }
  }

  lemma InvalidateGood(s: Shelf, tag: string)
    requires Good(s)
    ensures Good(InvalidateTag(s, tag)) && (IndexComplete(s) ==> IndexComplete(InvalidateTag(s, tag)))
    ensures tag in s.index ==> InvalidateTag(s, tag).records == s.records - (set k | k in s.index[tag])
    ensures tag !in s.index ==> InvalidateTag(s, tag) == s
  {
    hide RemoveAll, NoDup;
    if tag in s.index {
      RemoveAllGood(s, s.index[tag]);
      RemoveAllRecords(s, s.index[tag]);
      var rest, r := RemoveAll(s, s.index[tag]), InvalidateTag(s, tag);
      assert IndexSound(r) by {
        forall t | t in r.index ensures NoDup(r.index[t]) && forall k :: k in r.index[t] ==> Carries(r, k, t) {
          assert forall k :: k in rest.index[t] ==> Carries(rest, k, t);
        }
      }
      if IndexComplete(s) {
        forall k, t | k in r.records && t in r.records[k].tags ensures t in r.index && k in r.index[t] {
          KeptTags(s, s.index[tag], k);
          assert t in s.records[k].tags;
          assert t != tag;
        }
      }
    }
  }

  /** Removing other keys leaves a record as it is. */
  lemma KeptTags(s: Shelf, keys: seq<string>, k: string)
    requires k in RemoveAll(s, keys).records
    ensures k in s.records && k !in keys && RemoveAll(s, keys).records[k] == s.records[k]
  {
    RemoveAllRecords(s, keys);
  }

  /** With an exact index, invalidating a tag removes all the records that carry it and only those. */
  lemma InvalidateExact(s: Shelf, tag: string)
    requires Good(s) && IndexComplete(s)
    ensures InvalidateTag(s, tag).records == s.records - (set k | k in s.records && tag in s.records[k].tags)
  {
    hide InvalidateTag, NoDup;
    InvalidateGood(s, tag);
    if tag in s.index {
      assert (set k | k in s.records && tag in s.records[k].tags) == (set k | k in s.index[tag]) by {
        assert forall k :: k in s.index[tag] ==> Carries(s, k, tag);
      }
    } else {
      assert (set k | k in s.records && tag in s.records[k].tags) == {};
    }
  }

  lemma ClearGood(s: Shelf, prefix: Option<string>)
    requires Good(s)
    ensures Good(Clear(s, prefix)) && (IndexComplete(s) ==> IndexComplete(Clear(s, prefix)))
  {
    hide RemoveAll, PrefixedKeys;
    if prefix.None? {
      RemoveAllGood(s, s.order);
      RemoveAllRecords(s, s.order);
    } else {
      RemoveAllGood(s, PrefixedKeys(s.order, prefix.value));
    }
  }

  lemma {:induction false} PrefixedAre(keys: seq<string>, prefix: string)
    ensures forall k :: k in PrefixedKeys(keys, prefix) <==> k in keys && StartsWith(k, prefix)
  {
    if keys != [] {
      PrefixedAre(keys[..|keys| - 1], prefix);
      assert keys == keys[..|keys| - 1] + [keys[|keys| - 1]];
    }
  }

  /** Clearing removes exactly the keys with the prefix, or everything. */
  lemma ClearExact(s: Shelf, prefix: Option<string>)
    requires Listed(s)
    ensures Clear(s, prefix).records == s.records - (set k | k in s.records
            && (prefix.None? || StartsWith(k, prefix.value)))
  {
    hide RemoveAll, PrefixedKeys, StartsWith;
    if prefix.None? {
      RemoveAllRecords(s, s.order);
    } else {
      RemoveAllRecords(s, PrefixedKeys(s.order, prefix.value));
      PrefixedAre(s.order, prefix.value);
    }
  }

  // ----- Sweeping

  lemma {:induction false} ExpiredAre(s: Shelf, keys: seq<string>, now: int)
    ensures forall k :: k in ExpiredKeys(s, keys, now) <==> k in keys && Outlived(s, k, now)
  {
    hide Outlived;
    if keys != [] {
      ExpiredAre(s, keys[..|keys| - 1], now);
      assert keys == keys[..|keys| - 1] + [keys[|keys| - 1]];
    }
  }

  /** A sweep removes exactly the expired records. */
  lemma SweepExact(s: Shelf, now: int)
    requires Listed(s)
    ensures Sweep(s, now).records == s.records - (set k | k in s.records && Outlived(s, k, now))
  {
    hide RemoveAll, ExpiredKeys, Outlived;
    RemoveAllRecords(s, ExpiredKeys(s, s.order, now));
    ExpiredAre(s, s.order, now);
  }

  // ----- Budgets and removal

  lemma RemoveFits(c: Config, s: Shelf, key: string)
    requires Listed(s) && Fits(c, s)
    ensures Listed(Remove(s, key)) && Fits(c, Remove(s, key))
  {
    hide Unregister, Total;
    RemoveListed(s, key);
    if key in s.records { TotalWithout(s.order, s.records, key); }
  }

  lemma {:induction false} RemoveAllFits(c: Config, s: Shelf, keys: seq<string>)
    requires Listed(s) && Fits(c, s)
    ensures Listed(RemoveAll(s, keys)) && Fits(c, RemoveAll(s, keys))
  {
    hide Remove, Listed, Fits;
    if keys != [] {
      RemoveAllFits(c, s, keys[..|keys| - 1]);
      RemoveFits(c, RemoveAll(s, keys[..|keys| - 1]), keys[|keys| - 1]);
    }
  }

  // ----- Survivors

  /** The records from position `d` of the last-use order on fit both budgets. */
  predicate SuffixFits(c: Config, s: Shelf, d: nat)
    requires Listed(s) && d <= |s.order|
  {
    |s.order| - d <= c.maxEntries && Total(s.order[d..], s.records) <= c.maxSizeBytes
  }

  /** Eviction keeps exactly the longest suffix of the last-use order that fits both budgets. */
  lemma {:induction false} LongestSuffixSurvives(c: Config, s: Shelf) returns (d: nat)
    requires Listed(s)
    ensures d <= |s.order| && Enforce(c, s).order == s.order[d..]
    ensures SuffixFits(c, s, d) && forall e :: 0 <= e < d ==> !SuffixFits(c, s, e)
    ensures forall k :: k in s.order[d..] ==> k in Enforce(c, s).records && Enforce(c, s).records[k] == s.records[k]
    decreases |s.order|
  {
    hide Remove, Total;
    assert s.order[0..] == s.order;
    if Fits(c, s) {
      d := 0;
    } else if s.order == [] {
      d := 0;
      EmptyFits(c, s);
    } else {
      var r := Remove(s, s.order[0]);
      RemoveListed(s, s.order[0]);
      FirstRemoved(s);
      OthersKept(s);
      var e := LongestSuffixSurvives(c, r);
      d := e + 1;
      assert s.order[d..] == r.order[e..];
      forall i | 0 <= i <= |r.order| ensures SuffixFits(c, r, i) <==> SuffixFits(c, s, i + 1) {
        assert r.order[i..] == s.order[i + 1..];
        TotalSame(r.order[i..], r.records, s.records);
      }
      forall i | 0 <= i < d ensures !SuffixFits(c, s, i) {
        if i > 0 { assert !SuffixFits(c, r, i - 1); }
      }
    }
  }

  lemma EmptyFits(c: Config, s: Shelf)
    requires Listed(s) && s.order == []
    ensures SuffixFits(c, s, 0)
  {
  }

  lemma OthersKept(s: Shelf)
    requires Listed(s) && s.order != []
    ensures forall k :: k in s.order[1..] ==>
                          k in Remove(s, s.order[0]).records
                          && Remove(s, s.order[0]).records[k] == s.records[k]
  {
    hide Unregister, Without;
  }

  /** Moving a record within the order keeps everything. */
  lemma TouchKeeps(c: Config, s: Shelf, key: string)
    requires Good(s) && Fits(c, s) && key in s.records
    ensures Good(Touch(s, key)) && Fits(c, Touch(s, key)) && (IndexComplete(s) ==> IndexComplete(Touch(s, key)))
    ensures Total(Touch(s, key).order, s.records) == Total(s.order, s.records)
  {
    hide NoDup, Total;
    var rest := Without(s.order, key);
    WithoutNoDup(s.order, key);
    AppendNoDup(rest, key);
    TotalWithout(s.order, s.records, key);
    TotalSame(rest, s.records - {key}, s.records);
    TotalAppend(rest, s.records, key);
    WithoutLength(s.order, key);
    assert Listed(Touch(s, key));
    assert IndexSound(Touch(s, key)) by {
      forall t | t in s.index ensures forall k :: k in s.index[t] ==> Carries(Touch(s, key), k, t) {
        assert forall k :: k in s.index[t] ==> Carries(s, k, t);
      }
    }
  }
}
