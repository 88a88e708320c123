/**
 * The fallback tag index (src/tag-index.ts): one list of keys per tag, updated by compare-and-set with four
 * attempts, while other processes do the same.
 */
module TagIndexes {
  import opened Wrappers
  import opened Lists

  const CAS_RETRIES := 4
  const DELETE_CHUNK := 500

  /** The index entry of a tag as stored. */
  datatype Slot = Slot(keys: seq<string>, revision: int)

  function KeysOf(s: Option<Slot>): seq<string> {
    if s.Some? then s.value.keys else []
  }

  function RevisionOf(s: Option<Slot>): Option<int> {
    if s.Some? then Some(s.value.revision) else None
  }

  function NextRevision(s: Option<Slot>): int {
    if s.Some? then s.value.revision + 1 else 1
  }

  /** The list with the key added, cut to the newest `max` keys. */
  function Extended(keys: seq<string>, key: string, max: nat): seq<string> {
    var more := keys + [key];
    if |more| > max then more[|more| - max..] else more
  }

  /** The compare-and-set of the storage. */
  function Swap(s: Option<Slot>, expected: Option<int>, next: Slot): Option<Slot> {
    if RevisionOf(s) == expected then Some(next) else s
  }

  // ----- One process among others

  /** What other processes may do to a list meanwhile: append keys, each time with a new revision. */
  predicate Grows(a: Option<Slot>, b: Option<Slot>) {
    (a.Some? ==> b.Some? && a.value.keys <= b.value.keys && a.value.revision <= b.value.revision)
    && (a.Some? && a.value.revision == b.value.revision ==> a == b)
    && (a.None? && b.Some? ==> b.value.revision >= 1)
    && NoDup(KeysOf(b))
  }

  function Commits(s: Option<Slot>): int {
    if s.Some? then s.value.revision else 0
  }

  class TagIndex {
    const maxKeysPerTag: nat
    /** The index entry, shared with other processes. */
    var slot: Option<Slot>
    /** The keys of the entries in the storage. */
    var entries: set<string>

    constructor (max: nat)
      ensures maxKeysPerTag == max && slot == None && entries == {}
    {
      maxKeysPerTag, slot, entries := max, None, {};
    }

    /** Whatever happens while a call awaits the storage. */
    method Await()
      requires NoDup(KeysOf(slot))
      modifies this`slot
      ensures Grows(old(slot), slot)
    {
      assert Grows(slot, slot);
      var meanwhile: Option<Slot> :| Grows(slot, meanwhile);
      slot := meanwhile;
    }

    /**
     * Registers a key. Reported as stored, the key is in the list; nobody else's key was lost unless the list
     * was cut; and giving up means that others committed at least once per attempt.
     */
    method Add(key: string) returns (stored: bool, ghost cut: bool)
      requires NoDup(KeysOf(slot)) && Commits(slot) >= 0
      modifies this`slot
      ensures !cut ==> Grows(old(slot), slot)
      ensures !cut && stored ==> key in KeysOf(slot)
      ensures !cut && !stored ==> Commits(slot) >= Commits(old(slot)) + CAS_RETRIES
    {
      stored, cut := false, false;
      var attempt := 0;
      while attempt < CAS_RETRIES && !stored
        invariant attempt <= CAS_RETRIES
        invariant !cut ==> Grows(old(slot), slot)
        invariant NoDup(KeysOf(slot)) && Commits(slot) >= 0
        invariant !cut && stored ==> key in KeysOf(slot)
        invariant !cut && !stored ==> Commits(slot) >= Commits(old(slot)) + attempt
        decreases CAS_RETRIES - attempt, !stored
      {
        Await();
        var existing := slot;
        var keys := KeysOf(existing);
        if key in keys {
          stored := true;
          break;
        }
        cut := cut || |keys| + 1 > maxKeysPerTag;
        keys := Extended(keys, key, maxKeysPerTag);
        ExtendedNoDup(KeysOf(existing), key, maxKeysPerTag);
        Await();
        stored := RevisionOf(slot) == RevisionOf(existing);
        slot := Swap(slot, RevisionOf(existing), Slot(keys, NextRevision(existing)));
        attempt := attempt + 1;
      }
    }

    /** The list grows meanwhile, and others store and delete entries. */
    method AwaitAll(others: Meanwhile)
      requires NoDup(KeysOf(slot))
      modifies this
      ensures Grows(old(slot), slot) && entries == old(entries) + others.stored - others.gone
    {
      Await();
      entries := entries + others.stored - others.gone;
    }

    /**
     * Deletes every entry registered under the tag, in chunks, and the index entry. A listed key has an entry
     * afterwards exactly when others stored one after the deletion of its chunk; any other key is as others
     * left it. What others put on the list after it was read goes with the index.
     */
    method Invalidate(others: seq<Meanwhile>) returns (count: nat, ghost listed: seq<string>,
        ghost dropped: seq<string>)
      requires NoDup(KeysOf(slot))
      modifies this
      ensures slot == None && count == |listed| && KeysOf(old(slot)) <= listed <= dropped && NoDup(listed)
      ensures forall k :: k in entries
                <==> Survives(k in old(entries), k, listed, |listed|, others, Chunks(|listed|) + 2)
    {
      AwaitAll(At(others, 0));
      var keys, i, awaits := KeysOf(slot), 0, 1;
      listed := keys;
      forall k ensures k in entries <==> Survives(k in old(entries), k, keys, 0, others, 1) {
        NoneDeleted(k in old(entries), k, keys, others);
      }
      while i < |keys|
        invariant i <= |keys| && NoDup(KeysOf(slot)) && keys <= KeysOf(slot)
        invariant awaits == Chunks(i) + 1 && (i < |keys| ==> i % DELETE_CHUNK == 0)
        invariant forall k :: k in entries <==> Survives(k in old(entries), k, keys, i, others, awaits)
      {
        hide Survives, At, NoDup, Chunks;
        ghost var was := entries;
        AwaitAll(At(others, awaits));
        awaits := awaits + 1;
        NextChunk(i, |keys|);
        var end := if i + DELETE_CHUNK < |keys| then i + DELETE_CHUNK else |keys|;
        entries := entries - (set k | k in keys[i..end]);
        ChunkGone(old(entries), was, keys, i, end, others, awaits);
        i := end;
      }
      forall k ensures Survives(k in old(entries), k, keys, |keys|, others, awaits + 1) <==>
        (Survives(k in old(entries), k, keys, |keys|, others, awaits) || k in At(others, awaits).stored)
        && k !in At(others, awaits).gone
      {
        OneMoreAwait(k in old(entries), k, keys, others, awaits);
      }
      AwaitAll(At(others, awaits));
      dropped := KeysOf(slot);
      slot := None;
      count := |keys|;
    }
  }

  // ----- Entries during an invalidation

  /** The entries that others store, and then delete, while a call awaits the storage. */
  datatype Meanwhile = Meanwhile(stored: set<string>, gone: set<string>)

  function At(others: seq<Meanwhile>, i: nat): Meanwhile {
    if i < |others| then others[i] else Meanwhile({}, {})
  }

  /** Whether a key has an entry after what others do from one await up to another. */
  predicate Present(was: bool, key: string, others: seq<Meanwhile>, from: nat, to: nat) {
    if to <= from then was
    else
      (Present(was, key, others, from, to - 1) || key in At(others, to - 1).stored)
      && key !in At(others, to - 1).gone
  }

  function Chunks(n: nat): nat {
    (n + DELETE_CHUNK - 1) / DELETE_CHUNK
  }

  /** Where a key stands on a list. */
  function Place(keys: seq<string>, key: string): (i: nat)
    requires key in keys
    ensures i < |keys| && keys[i] == key
  {
    if keys[0] == key then 0 else 1 + Place(keys[1..], key)
  }

  /** Whether a key has an entry after some awaits, when the keys in front of `done` have been deleted by then. */
  predicate Survives(was: bool, key: string, keys: seq<string>, done: nat, others: seq<Meanwhile>, awaits: nat) {
    if key in keys && Place(keys, key) < done
    then Present(false, key, others, Place(keys, key) / DELETE_CHUNK + 2, awaits)
    else Present(was, key, others, 0, awaits)
  }

  lemma NoneDeleted(was: bool, key: string, keys: seq<string>, others: seq<Meanwhile>)
    ensures Survives(was, key, keys, 0, others, 1) <==>
              (was || key in At(others, 0).stored)
              && key !in At(others, 0).gone
  {
    assert Present(was, key, others, 0, 0) == was;
  }

  lemma OneMoreAwait(was: bool, key: string, keys: seq<string>, others: seq<Meanwhile>, awaits: nat)
    requires awaits == Chunks(|keys|) + 1
    ensures Survives(was, key, keys, |keys|, others, awaits + 1) <==>
              (Survives(was, key, keys, |keys|, others, awaits) || key in At(others, awaits).stored)
              && key !in At(others, awaits).gone
  {
  }

  /** The same for all keys at once. */
  lemma ChunkGone(start: set<string>, was: set<string>, keys: seq<string>, i: nat, end: nat, others: seq<Meanwhile>,
      awaits: nat)
    requires NoDup(keys) && i < |keys| && i % DELETE_CHUNK == 0 && awaits == Chunks(i) + 2
    requires end == if i + DELETE_CHUNK < |keys| then i + DELETE_CHUNK else |keys|
    requires forall k :: k in was <==> Survives(k in start, k, keys, i, others, awaits - 1)
    ensures forall k ::
              k in was + At(others, awaits - 1).stored - At(others, awaits - 1).gone - (set x | x in keys[i..end])
              <==> Survives(k in start, k, keys, end, others, awaits)
  {
    hide Survives, At, NoDup, Chunks;
    forall k
      ensures k in was + At(others, awaits - 1).stored - At(others, awaits - 1).gone - (set x | x in keys[i..end])
              <==> Survives(k in start, k, keys, end, others, awaits)
    {
      ChunkDeleted(k in start, k, keys, i, end, others, awaits);
    }
  }

  /** Every chunk but the last is full. */
  lemma NextChunk(i: nat, n: nat)
    requires i < n && i % DELETE_CHUNK == 0
    ensures var end := if i + DELETE_CHUNK < n then i + DELETE_CHUNK else n;
            Chunks(end) == Chunks(i) + 1 && (end < n ==> end % DELETE_CHUNK == 0)
  {
  }

  lemma ChunkDeleted(was: bool, key: string, keys: seq<string>, i: nat, end: nat, others: seq<Meanwhile>, awaits: nat)
    requires NoDup(keys) && i < |keys| && i % DELETE_CHUNK == 0 && awaits == Chunks(i) + 2
    requires end == if i + DELETE_CHUNK < |keys| then i + DELETE_CHUNK else |keys|
    ensures Survives(was, key, keys, end, others, awaits) <==>
              (Survives(was, key, keys, i, others, awaits - 1) || key in At(others, awaits - 1).stored)
              && key !in At(others, awaits - 1).gone && key !in keys[i..end]
  {
    if key in keys {
      var at := Place(keys, key);
      if i <= at < end {
        assert keys[i..end][at - i] == key;
        assert at / DELETE_CHUNK + 2 == awaits;
      } else {
        assert key !in keys[i..end];
        if at < i { assert at / DELETE_CHUNK + 2 < awaits; }
      }
    }
  }

  lemma ExtendedNoDup(keys: seq<string>, key: string, max: nat)
    requires NoDup(keys) && key !in keys
    ensures NoDup(Extended(keys, key, max))
    ensures |keys| + 1 <= max ==> Extended(keys, key, max) == keys + [key]
  {
    AppendNoDup(keys, key);
    SuffixNoDup(keys + [key], if |keys| + 1 > max then |keys| + 1 - max else 0);
    assert (keys + [key])[0..] == keys + [key];
  }

  lemma SuffixNoDup(s: seq<string>, i: nat)
    requires NoDup(s) && i <= |s|
    ensures NoDup(s[i..])
  {
    var t := s[i..];
    assert forall k :: 0 <= k < |t| ==> t[k] == s[i + k];
  }
}
