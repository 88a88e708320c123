/**
 * Runs of the memory storage against a plain map: every reply is the reply of a map from keys to their last
 * written entry and its tags, except for keys evicted since they were written and tags whose index dropped a key.
 */
module MemoryRuns {
  import opened Wrappers
  import opened Lists
  import opened Strings
  import opened Entries
  import opened MemoryShelf
  import opened MemoryInvariants

  datatype Op =
    | GetOp(key: string) | HasOp(key: string)
    | SetOp(key: string, entry: CacheEntry, onlyIfNewer: bool)
    | CasOp(key: string, entry: CacheEntry, expected: Option<int>)
    | DeleteOp(keys: seq<string>) | ClearOp(prefix: Option<string>)
    | AddTagsOp(key: string, tags: seq<string>) | InvalidateOp(tag: string)

  datatype Reply = Nothing | Found(entry: Option<CacheEntry>) | Flag(b: bool)

  /** What the storage does. */
  function Perform(c: Config, st: State, op: Op, now: int): (Reply, State)
    requires Listed(st.shelf)
  {
    match op
    case GetOp(key) => var (entry, rest) := Get(c, st, key, now); (Found(entry), rest)
    case HasOp(key) => var (found, rest) := Has(st, key, now); (Flag(found), rest)
    case SetOp(key, entry, onlyIfNewer) => (Nothing, Set(c, st, key, entry, onlyIfNewer, now))
    case CasOp(key, entry, expected) => var (ok, rest) := CompareAndSet(c, st, key, entry, expected, now);
        (Flag(ok), rest)
    case DeleteOp(keys) => (Nothing, st.(shelf := RemoveAll(st.shelf, keys)))
    case ClearOp(prefix) => (Nothing, st.(shelf := Clear(st.shelf, prefix)))
    case AddTagsOp(key, tags) => (Nothing, st.(shelf := AddTags(st.shelf, key, tags)))
    case InvalidateOp(tag) => (Nothing, st.(shelf := InvalidateTag(st.shelf, tag)))
  }

  // ----- The plain map

  datatype Ref = Ref(entry: CacheEntry, tags: set<string>)

  function TagSet(tags: seq<string>): set<string> {
    set t | t in tags
  }

  /** The entry a reader is to see: the last one written, while it lives and unless its key was evicted. */
  function Visible(m: map<string, Ref>, evicted: set<string>, key: string, now: int): Option<CacheEntry> {
    if key in m && Live(m[key].entry, now) && key !in evicted then Some(m[key].entry) else None
  }

  /** Whether a write goes through, given the entry that is visible. */
  predicate Writes(op: Op, visible: Option<CacheEntry>) {
    match op
    case SetOp(_, entry, onlyIfNewer) => !(onlyIfNewer && visible.Some? && visible.value.revision >= entry.revision)
    case CasOp(_, _, expected) => (if visible.Some? then Some(visible.value.revision) else None) == expected
    case _ => false
  }

  function Answer(m: map<string, Ref>, evicted: set<string>, op: Op, now: int): Reply {
    match op
    case GetOp(key) => Found(Visible(m, evicted, key, now))
    case HasOp(key) => Flag(Visible(m, evicted, key, now).Some?)
    case CasOp(key, _, _) => Flag(Writes(op, Visible(m, evicted, key, now)))
    case _ => Nothing
  }

  function Apply(m: map<string, Ref>, evicted: set<string>, op: Op, now: int): map<string, Ref> {
    match op
    case GetOp(_) => m
    case HasOp(_) => m
    case SetOp(key, entry, _) => if Writes(op, Visible(m, evicted, key, now))
        then m[key := Ref(entry, TagSet(TagsOf(entry)))] else m
    case CasOp(key, entry, _) => if Writes(op, Visible(m, evicted, key, now))
        then m[key := Ref(entry, TagSet(TagsOf(entry)))] else m
    case DeleteOp(keys) => m - (set k | k in keys)
    case ClearOp(prefix) => m - (set k | k in m && (prefix.None? || StartsWith(k, prefix.value)))
    case AddTagsOp(key, tags) => if key in m then m[key := m[key].(tags := m[key].tags + TagSet(tags))] else m
    case InvalidateOp(tag) => m - (set k | k in m && tag in m[k].tags)
  }

  // ----- Both together

  /** A write makes the set of a tag too long, and the key is among those dropped from it. */
  predicate Drops(c: Config, base: Shelf, key: string, tag: string, k: string) {
    var keys := Added(Registered(Remove(base, key).index, tag), key);
    k in keys && k !in Trimmed(keys, c.tagIndexLimit)
  }

  /** A key that is dropped from the set of a tag no longer has the tag. */
  function Untagged(c: Config, base: Shelf, key: string, tags: seq<string>, m: map<string, Ref>): map<string, Ref> {
    map k | k in m :: m[k].(tags := set t | t in m[k].tags && !(t in tags && Drops(c, base, key, t, k)))
  }

  /** The storage and two maps it is measured against: one whose keys lose tags, and a plain one. */
  datatype World = World(
    st: State, model: map<string, Ref>, plain: map<string, Ref>, evicted: set<string>, overflowed: bool, now: int)

  /** The contents that a write starts from: after the sweep, and after an expired record was dropped. */
  function Base(c: Config, st: State, op: Op, now: int): Shelf
    requires op.SetOp? || op.CasOp?
  {
    var swept := MaybeSweep(c, st, now).shelf;
    if op.SetOp? && !op.onlyIfNewer then swept else Read(swept, op.key, now).1
  }

  /** The entry the storage compares with. */
  function Current(c: Config, st: State, op: Op, now: int): Option<CacheEntry>
    requires op.SetOp? || op.CasOp?
  {
    var record := Read(MaybeSweep(c, st, now).shelf, op.key, now).0;
    if record.Some? then Some(record.value.entry) else None
  }

  predicate Stores(c: Config, st: State, op: Op, now: int) {
    (op.SetOp? || op.CasOp?) && Writes(op, Current(c, st, op, now))
  }

  function Step(c: Config, w: World, op: Op, now: int): World
    requires Listed(w.st.shelf)
  {
    var st := Perform(c, w.st, op, now).1;
    var model := Apply(w.model, w.evicted, op, now);
    var plain := Apply(w.plain, w.evicted, op, now);
    if Stores(c, w.st, op, now) then
      var base := Base(c, w.st, op, now);
      var placed := Place(c, base, op.key, op.entry);
      World(st, Untagged(c, base, op.key, TagsOf(op.entry), model), plain,
            (w.evicted - {op.key}) + (placed.records.Keys - st.shelf.records.Keys),
            w.overflowed || Overflows(c, base, op.key, op.entry), now)
    else World(st, model, plain, w.evicted, w.overflowed, now)
  }

  /** The entry is the last one written, and its tags are those it is registered for. */
  ghost predicate AgreesOn(s: Shelf, m: map<string, Ref>, evicted: set<string>, k: string) {
    k in s.records ==>
      k in m && m[k].entry == s.records[k].entry && k !in evicted
      && forall t :: t in m[k].tags <==> k in Registered(s.index, t)
  }

  predicate GoneFor(m: map<string, Ref>, evicted: set<string>, k: string, now: int)
    requires k in m
  {
    k in evicted || !Live(m[k].entry, now)
  }

  /** What is stored is what was last written; what is missing was evicted or has expired. */
  ghost predicate Agrees(s: Shelf, m: map<string, Ref>, evicted: set<string>, now: int) {
    (forall k :: k in s.records ==> AgreesOn(s, m, evicted, k)) &&
    forall k :: k in m && k !in s.records ==> GoneFor(m, evicted, k, now)
  }

  ghost predicate Inv(c: Config, w: World) {
    Good(w.st.shelf) && Fits(c, w.st.shelf) && (c.maxEntries < c.tagIndexLimit ==> !w.overflowed)
    && Agrees(w.st.shelf, w.model, w.evicted, w.now)
    && (!w.overflowed ==> IndexComplete(w.st.shelf) && w.model == w.plain)
  }

  // ----- Memberships of the records that stay

  /** The records that stay are registered as before. */
  ghost predicate Registers(s: Shelf, r: Shelf) {
    forall k, t :: k in r.records ==> k in s.records && (k in Registered(r.index, t) <==> k in Registered(s.index, t))
  }

  lemma RemoveRegisters(s: Shelf, key: string)
    ensures Registers(s, Remove(s, key))
  {
  }

  lemma {:induction false} RemoveAllRegisters(s: Shelf, keys: seq<string>)
    ensures Registers(s, RemoveAll(s, keys))
  {
    hide Remove, Registers;
    if keys != [] {
      var mid := RemoveAll(s, keys[..|keys| - 1]);
      RemoveAllRegisters(s, keys[..|keys| - 1]);
      RemoveRegisters(mid, keys[|keys| - 1]);
      RegistersBoth(s, mid, RemoveAll(s, keys));
    } else {
      RegistersItself(s);
    }
  }

  lemma RegistersItself(s: Shelf)
    ensures Registers(s, s)
  {
  }

  lemma RegistersBoth(s: Shelf, mid: Shelf, r: Shelf)
    requires Registers(s, mid) && Registers(mid, r)
    ensures Registers(s, r)
  {
    forall k, t | k in r.records
      ensures k in s.records && (k in Registered(r.index, t) <==> k in Registered(s.index, t))
    {
      assert k in Registered(r.index, t) <==> k in Registered(mid.index, t);
    }
  }

  lemma {:induction false} EnforceRegisters(c: Config, s: Shelf)
    requires Listed(s)
    ensures Registers(s, Enforce(c, s))
    ensures forall k :: k in Enforce(c, s).records ==> k in s.records && Enforce(c, s).records[k] == s.records[k]
    decreases |s.order|
  {
    hide Unregister, Fits, Registered;
    if !Fits(c, s) && s.order != [] {
      RemoveListed(s, s.order[0]);
      WithoutLength(s.order, s.order[0]);
      RemoveRegisters(s, s.order[0]);
      EnforceRegisters(c, Remove(s, s.order[0]));
    }
  }

  // ----- Agreement is kept

  lemma Ages(s: Shelf, m: map<string, Ref>, evicted: set<string>, now: int, later: int)
    requires Agrees(s, m, evicted, now) && now <= later
    ensures Agrees(s, m, evicted, later)
  {
    hide AgreesOn;
    forall k | k in m && k !in s.records ensures GoneFor(m, evicted, k, later) {
      assert GoneFor(m, evicted, k, now);
    }
  }

  /** Dropping expired records changes nothing a reader sees. */
  lemma DropsExpired(s: Shelf, r: Shelf, m: map<string, Ref>, evicted: set<string>, now: int, gone: set<string>)
    requires Agrees(s, m, evicted, now) && Registers(s, r) && r.records == s.records - gone
    requires forall k :: k in gone && k in s.records ==> !Live(s.records[k].entry, now)
    ensures Agrees(r, m, evicted, now)
  {
    hide Live;
    forall k | k in r.records ensures AgreesOn(r, m, evicted, k) { assert AgreesOn(s, m, evicted, k); }
    forall k | k in m && k !in r.records ensures GoneFor(m, evicted, k, now) {
      if k in s.records { assert AgreesOn(s, m, evicted, k); } else { assert GoneFor(m, evicted, k, now); }
    }
  }

  lemma Removes(s: Shelf, r: Shelf, m: map<string, Ref>, evicted: set<string>, now: int, a: set<string>, b: set<string>)
    requires Agrees(s, m, evicted, now) && Registers(s, r) && r.records == s.records - a
    requires forall k :: k in s.records ==> (k in a <==> k in b)
    ensures Agrees(r, m - b, evicted, now)
  {
    hide Live;
    var left := m - b;
    forall k | k in r.records ensures AgreesOn(r, left, evicted, k) { assert AgreesOn(s, m, evicted, k); }
    forall k | k in left && k !in r.records ensures GoneFor(left, evicted, k, now) {
      assert GoneFor(m, evicted, k, now);
    }
  }

  /** Placing a record: other keys lose the tags from whose sets they are dropped. */
  lemma Placed(c: Config, s: Shelf, m: map<string, Ref>, evicted: set<string>, now: int, key: string, entry: CacheEntry)
    requires Agrees(s, m, evicted, now) && Good(s)
    ensures Agrees(Place(c, s, key, entry),
                   Untagged(c, s, key, TagsOf(entry), m[key := Ref(entry, TagSet(TagsOf(entry)))]),
                   evicted - {key}, now)
  {
    hide Live, Good, Trimmed, Untagged, Drops, Place;
    var m' := m[key := Ref(entry, TagSet(TagsOf(entry)))];
    var placed, after := Place(c, s, key, entry), Untagged(c, s, key, TagsOf(entry), m');
    PlacedRecords(c, s, key, entry);
    UntaggedEntries(c, s, key, TagsOf(entry), m');
    forall k | k in placed.records ensures AgreesOn(placed, after, evicted - {key}, k) {
      assert k != key ==> AgreesOn(s, m, evicted, k);
      forall t ensures t in after[k].tags <==> k in Registered(placed.index, t) {
        PlacedTag(c, s, key, entry, k, t);
      }
    }
    forall k | k in after && k !in placed.records ensures GoneFor(after, evicted - {key}, k, now) {
      assert GoneFor(m, evicted, k, now);
    }
  }

  lemma PlacedRecords(c: Config, s: Shelf, key: string, entry: CacheEntry)
    ensures Place(c, s, key, entry).records == s.records[key := Record(entry, EntrySize(entry), TagsOf(entry))]
  {
    hide Register, Unregister;
  }

  lemma UntaggedEntries(c: Config, s: Shelf, key: string, tags: seq<string>, m: map<string, Ref>)
    ensures Untagged(c, s, key, tags, m).Keys == m.Keys
    ensures forall k :: k in m ==> Untagged(c, s, key, tags, m)[k].entry == m[k].entry
    ensures forall k, t :: k in m ==>
              (t in Untagged(c, s, key, tags, m)[k].tags <==> t in m[k].tags && !(t in tags && Drops(c, s, key, t, k)))
  {
    hide Drops;
  }

  lemma PlacedTag(c: Config, s: Shelf, key: string, entry: CacheEntry, k: string, t: string)
    requires Good(s) && (k == key || k in s.records)
    ensures k in Registered(Place(c, s, key, entry).index, t) <==>
              (if k == key then t in TagsOf(entry) else k in Registered(s.index, t))
              && !(t in TagsOf(entry) && Drops(c, s, key, t, k))
  {
    hide Good, Trimmed, Unregister;
    NotRegistered(s, key);
    RemoveRegisters(s, key);
    var keys := Added(Registered(Remove(s, key).index, t), key);
    if k in s.records && k != key { assert k in Remove(s, key).records; }
    TrimmedIn(keys, c.tagIndexLimit, k);
  }

  lemma TrimmedIn(s: seq<string>, limit: nat, k: string)
    ensures k in Trimmed(s, limit) ==> k in s
  {
  }

  /** Evicting: what goes is counted as evicted. */
  lemma Evicts(s: Shelf, r: Shelf, m: map<string, Ref>, evicted: set<string>, now: int)
    requires Agrees(s, m, evicted, now) && Registers(s, r)
    requires forall k :: k in r.records ==> k in s.records && r.records[k] == s.records[k]
    ensures Agrees(r, m, evicted + (s.records.Keys - r.records.Keys), now)
  {
    hide Live;
    var e' := evicted + (s.records.Keys - r.records.Keys);
    forall k | k in r.records ensures AgreesOn(r, m, e', k) { assert AgreesOn(s, m, evicted, k); }
    forall k | k in m && k !in r.records ensures GoneFor(m, e', k, now) {
      if k !in s.records { assert GoneFor(m, evicted, k, now); }
    }
  }

  lemma Tagged(s: Shelf, m: map<string, Ref>, evicted: set<string>, now: int, key: string, tags: seq<string>)
    requires Agrees(s, m, evicted, now)
    ensures key in s.records ==> key in m
    ensures Agrees(AddTags(s, key, tags),
                   if key in m then m[key := m[key].(tags := m[key].tags + TagSet(tags))] else m, evicted, now)
  {
    hide Live, Deduped;
    assert AgreesOn(s, m, evicted, key);
    if key in m {
      var r, m' := AddTags(s, key, tags), m[key := m[key].(tags := m[key].tags + TagSet(tags))];
      forall k | k in r.records ensures AgreesOn(r, m', evicted, k) {
        assert AgreesOn(s, m, evicted, k);
      }
      forall k | k in m' && k !in r.records ensures GoneFor(m', evicted, k, now) { assert GoneFor(m, evicted, k, now); }
    }
  }

  // ----- Sweeping and reading under agreement

  ghost predicate Matches(c: Config, s: Shelf, m: map<string, Ref>, evicted: set<string>, now: int) {
    Good(s) && Fits(c, s) && Agrees(s, m, evicted, now)
  }

  lemma SweepKeeps(c: Config, st: State, now: int)
    requires Good(st.shelf) && Fits(c, st.shelf)
    ensures Good(MaybeSweep(c, st, now).shelf) && Fits(c, MaybeSweep(c, st, now).shelf)
    ensures IndexComplete(st.shelf) ==> IndexComplete(MaybeSweep(c, st, now).shelf)
  {
    hide RemoveAll, ExpiredKeys, IndexComplete, IndexSound, Listed, Sized, Fits;
    GoodListed(st.shelf);
    var keys := ExpiredKeys(st.shelf, st.shelf.order, now);
    RemoveAllGood(st.shelf, keys);
    RemoveAllFits(c, st.shelf, keys);
  }

  lemma SweepMatches(c: Config, st: State, m: map<string, Ref>, evicted: set<string>, now: int)
    requires Matches(c, st.shelf, m, evicted, now)
    ensures Matches(c, MaybeSweep(c, st, now).shelf, m, evicted, now)
  {
    hide Good, Fits, Agrees, RemoveAll, ExpiredKeys, Registers;
    GoodListed(st.shelf);
    SweepKeeps(c, st, now);
    if MaybeSweep(c, st, now).shelf != st.shelf {
      SweepExact(st.shelf, now);
      RemoveAllRegisters(st.shelf, ExpiredKeys(st.shelf, st.shelf.order, now));
      DropsExpired(st.shelf, Sweep(st.shelf, now), m, evicted, now,
                   set k | k in st.shelf.records && Outlived(st.shelf, k, now));
    }
  }

  lemma ReadKeeps(c: Config, s: Shelf, key: string, now: int)
    requires Good(s) && Fits(c, s)
    ensures Good(Read(s, key, now).1) && Fits(c, Read(s, key, now).1)
    ensures IndexComplete(s) ==> IndexComplete(Read(s, key, now).1)
  {
    hide Remove, IndexComplete, Good, Fits, Outlived;
    GoodListed(s);
    RemoveGood(s, key);
    RemoveFits(c, s, key);
    if IndexComplete(s) { RemoveComplete(s, key); }
  }

  /** Reading finds exactly the visible entry. */
  lemma ReadMatches(c: Config, s: Shelf, m: map<string, Ref>, evicted: set<string>, key: string, now: int)
    requires Matches(c, s, m, evicted, now)
    ensures Matches(c, Read(s, key, now).1, m, evicted, now)
    ensures Visible(m, evicted, key, now) == var r := Read(s, key, now).0; if r.Some? then Some(r.value.entry) else None
    ensures Read(s, key, now).0.Some? ==>
              Read(s, key, now).1 == s && key in s.records && Read(s, key, now).0.value == s.records[key]
  {
    hide Good, Fits, Unregister, Without, Live, Registers;
    ReadKeeps(c, s, key, now);
    assert AgreesOn(s, m, evicted, key);
    if Outlived(s, key, now) {
      RemoveRegisters(s, key);
      DropsExpired(s, Remove(s, key), m, evicted, now, {key});
    }
    if key in m && key !in s.records { assert GoneFor(m, evicted, key, now); }
  }

  // ----- One step

  ghost predicate StepOk(c: Config, w: World, op: Op, now: int)
    requires Listed(w.st.shelf)
  {
    Inv(c, Step(c, w, op, now)) && Perform(c, w.st, op, now).0 == Answer(w.model, w.evicted, op, now)
  }

  lemma InvMatches(c: Config, w: World, now: int)
    requires Inv(c, w) && w.now <= now
    ensures Matches(c, w.st.shelf, w.model, w.evicted, now)
  {
    hide Good, Fits, IndexComplete, Agrees;
    Ages(w.st.shelf, w.model, w.evicted, w.now, now);
  }

  lemma GetStep(c: Config, w: World, op: Op, now: int)
    requires Inv(c, w) && w.now <= now && (op.GetOp? || op.HasOp?)
    ensures Listed(w.st.shelf) && StepOk(c, w, op, now)
  {
    hide Good, Fits, IndexComplete, Agrees, MaybeSweep, Read, Touch;
    GoodListed(w.st.shelf);
    var s := if op.GetOp? then MaybeSweep(c, w.st, now).shelf else w.st.shelf;
    if op.GetOp? { SweepKeeps(c, w.st, now); }
    ReadKeeps(c, s, op.key, now);
    ReadFinds(s, op.key, now);
    if Read(s, op.key, now).0.Some? { TouchKeeps(c, s, op.key); }
    InvMatches(c, w, now);
    if op.GetOp? { SweepMatches(c, w.st, w.model, w.evicted, now); }
    ReadMatches(c, s, w.model, w.evicted, op.key, now);
    TouchAgrees(s, w.model, w.evicted, op.key, now);
  }

  lemma ReadFinds(s: Shelf, key: string, now: int)
    ensures Read(s, key, now).0.Some? ==> Read(s, key, now).1 == s && key in s.records
  {
  }

  lemma TouchAgrees(s: Shelf, m: map<string, Ref>, evicted: set<string>, key: string, now: int)
    ensures Agrees(s, m, evicted, now) ==> Agrees(Touch(s, key), m, evicted, now)
  {
    if Agrees(s, m, evicted, now) {
      forall k | k in s.records ensures AgreesOn(Touch(s, key), m, evicted, k) { assert AgreesOn(s, m, evicted, k); }
    }
  }

  /** What a write operation does, in terms of the parts used above. */
  lemma WriteUnfolds(c: Config, st: State, op: Op, now: int)
    requires Listed(st.shelf) && (op.SetOp? || op.CasOp?)
    ensures Listed(Base(c, st, op, now))
    ensures Perform(c, st, op, now).1.shelf ==
            if Stores(c, st, op, now) then Write(c, Base(c, st, op, now), op.key, op.entry) else Base(c, st, op, now)
    ensures op.SetOp? ==> Perform(c, st, op, now).0 == Nothing
    ensures op.CasOp? ==> Perform(c, st, op, now).0 == Flag(Stores(c, st, op, now))
  {
    hide Listed, MaybeSweep, Read, Write;
    SweepListed(c, st, now);
    ReadListed(MaybeSweep(c, st, now).shelf, op.key, now);
  }

  lemma BaseKeeps(c: Config, st: State, op: Op, now: int)
    requires Good(st.shelf) && Fits(c, st.shelf) && (op.SetOp? || op.CasOp?)
    ensures Good(Base(c, st, op, now)) && Fits(c, Base(c, st, op, now))
  {
    hide Good, Fits, MaybeSweep, Read;
    SweepKeeps(c, st, now);
    ReadKeeps(c, MaybeSweep(c, st, now).shelf, op.key, now);
  }

  lemma BaseComplete(c: Config, st: State, op: Op, now: int)
    requires Good(st.shelf) && Fits(c, st.shelf) && IndexComplete(st.shelf) && (op.SetOp? || op.CasOp?)
    ensures IndexComplete(Base(c, st, op, now))
  {
    hide Good, Fits, MaybeSweep, Read, IndexComplete;
    SweepKeeps(c, st, now);
    ReadKeeps(c, MaybeSweep(c, st, now).shelf, op.key, now);
  }

  lemma BaseMatches(c: Config, st: State, m: map<string, Ref>, evicted: set<string>, op: Op, now: int)
    requires Matches(c, st.shelf, m, evicted, now) && (op.SetOp? || op.CasOp?)
    ensures Matches(c, Base(c, st, op, now), m, evicted, now)
    ensures Current(c, st, op, now) == Visible(m, evicted, op.key, now)
  {
    hide Matches, MaybeSweep, Read;
    SweepMatches(c, st, m, evicted, now);
    ReadMatches(c, MaybeSweep(c, st, now).shelf, m, evicted, op.key, now);
  }

  lemma WriteMatches(c: Config, s: Shelf, m: map<string, Ref>, evicted: set<string>, key: string, entry: CacheEntry,
      now: int)
    requires Matches(c, s, m, evicted, now)
    ensures Listed(s)
    ensures Matches(c, Write(c, s, key, entry),
                    Untagged(c, s, key, TagsOf(entry), m[key := Ref(entry, TagSet(TagsOf(entry)))]),
                    (evicted - {key}) + (Place(c, s, key, entry).records.Keys - Write(c, s, key, entry).records.Keys),
                    now)
  {
    hide Good, Fits, Agrees, Enforce, Place, Untagged, Registers;
    GoodListed(s);
    WriteKeeps(c, s, key, entry);
    PlaceListed(c, s, key, entry);
    EnforceRegisters(c, Place(c, s, key, entry));
    Placed(c, s, m, evicted, now, key, entry);
    Evicts(Place(c, s, key, entry), Write(c, s, key, entry),
           Untagged(c, s, key, TagsOf(entry), m[key := Ref(entry, TagSet(TagsOf(entry)))]), evicted - {key}, now);
  }

  /** Where no set outgrows its limit no key loses a tag. */
  lemma NothingDropped(c: Config, s: Shelf, key: string, entry: CacheEntry, m: map<string, Ref>)
    requires !Overflows(c, s, key, entry)
    ensures Untagged(c, s, key, TagsOf(entry), m) == m
  {
    hide Remove, Drops;
    forall t, k | t in TagsOf(entry) ensures !Drops(c, s, key, t, k) {
      ShortSet(c, s, key, entry, t, k);
    }
    forall k | k in m ensures Untagged(c, s, key, TagsOf(entry), m)[k] == m[k] {
      assert Untagged(c, s, key, TagsOf(entry), m)[k].tags == m[k].tags;
    }
  }

  lemma ShortSet(c: Config, s: Shelf, key: string, entry: CacheEntry, t: string, k: string)
    requires !Overflows(c, s, key, entry) && t in TagsOf(entry)
    ensures !Drops(c, s, key, t, k)
  {
    hide Remove;
  }

  lemma WriteStep(c: Config, w: World, op: Op, now: int)
    requires Inv(c, w) && w.now <= now && (op.SetOp? || op.CasOp?)
    ensures Listed(w.st.shelf) && StepOk(c, w, op, now)
  {
    hide Good, Fits, IndexComplete, Agrees, Base, Current, Write, Place, Overflows, Perform, Visible, Untagged;
    GoodListed(w.st.shelf);
    var base := Base(c, w.st, op, now);
    WriteUnfolds(c, w.st, op, now);
    BaseKeeps(c, w.st, op, now);
    WriteKeeps(c, base, op.key, op.entry);
    if c.maxEntries < c.tagIndexLimit { NeverOverflows(c, base, op.key, op.entry); }
    if !w.overflowed { BaseComplete(c, w.st, op, now); }
    InvMatches(c, w, now);
    BaseMatches(c, w.st, w.model, w.evicted, op, now);
    WriteMatches(c, base, w.model, w.evicted, op.key, op.entry, now);
    if !Overflows(c, base, op.key, op.entry) {
      NothingDropped(c, base, op.key, op.entry, w.model[op.key := Ref(op.entry, TagSet(TagsOf(op.entry)))]);
    }
  }

  lemma DeleteStep(c: Config, w: World, op: Op, now: int)
    requires Inv(c, w) && w.now <= now && op.DeleteOp?
    ensures Listed(w.st.shelf) && StepOk(c, w, op, now)
  {
    hide Good, Fits, IndexComplete, Agrees, RemoveAll, Registers;
    GoodListed(w.st.shelf);
    var s := w.st.shelf;
    RemoveAllGood(s, op.keys);
    RemoveAllFits(c, s, op.keys);
    RemoveAllRecords(s, op.keys);
    RemoveAllRegisters(s, op.keys);
    InvMatches(c, w, now);
    Removes(s, RemoveAll(s, op.keys), w.model, w.evicted, now, set k | k in op.keys, set k | k in op.keys);
  }

  lemma ClearFits(c: Config, s: Shelf, prefix: Option<string>)
    requires Good(s) && Fits(c, s)
    ensures Listed(Clear(s, prefix)) && Fits(c, Clear(s, prefix))
  {
    hide RemoveAll, PrefixedKeys, Total, NoDup;
    RemoveAllFits(c, s, s.order);
    if prefix.Some? { RemoveAllFits(c, s, PrefixedKeys(s.order, prefix.value)); }
  }

  lemma ClearRegisters(s: Shelf, prefix: Option<string>)
    requires Listed(s)
    ensures Registers(s, Clear(s, prefix))
  {
    hide RemoveAll, PrefixedKeys, NoDup;
    if prefix.None? {
      RemoveAllRecords(s, s.order);
    } else {
      RemoveAllRegisters(s, PrefixedKeys(s.order, prefix.value));
    }
  }

  lemma ClearStep(c: Config, w: World, op: Op, now: int)
    requires Inv(c, w) && w.now <= now && op.ClearOp?
    ensures Listed(w.st.shelf) && StepOk(c, w, op, now)
  {
    hide Good, Fits, IndexComplete, Clear, StartsWith, Live, Registers;
    GoodListed(w.st.shelf);
    var s := w.st.shelf;
    ClearGood(s, op.prefix);
    ClearFits(c, s, op.prefix);
    ClearExact(s, op.prefix);
    InvMatches(c, w, now);
    var a := set k | k in s.records && (op.prefix.None? || StartsWith(k, op.prefix.value));
    var b := set k | k in w.model && (op.prefix.None? || StartsWith(k, op.prefix.value));
    forall k | k in s.records ensures k in a <==> k in b { assert AgreesOn(s, w.model, w.evicted, k); }
    ClearRegisters(s, op.prefix);
    Removes(s, Clear(s, op.prefix), w.model, w.evicted, now, a, b);
  }

  lemma TagStep(c: Config, w: World, op: Op, now: int)
    requires Inv(c, w) && w.now <= now && op.AddTagsOp?
    ensures Listed(w.st.shelf) && StepOk(c, w, op, now)
  {
    hide Good, Fits, IndexComplete, Agrees, AddTags;
    GoodListed(w.st.shelf);
    var s := w.st.shelf;
    AddTagsGood(s, op.key, op.tags);
    AddTagsFits(c, s, op.key, op.tags);
    InvMatches(c, w, now);
    Tagged(s, w.model, w.evicted, now, op.key, op.tags);
  }

  lemma AddTagsFits(c: Config, s: Shelf, key: string, tags: seq<string>)
    requires Listed(s) && Fits(c, s)
    ensures Listed(AddTags(s, key, tags)) && Fits(c, AddTags(s, key, tags))
  {
    hide Deduped, AddToIndex, Total, NoDup;
    var r := AddTags(s, key, tags);
    TotalSame(s.order, s.records, r.records);
  }

  lemma InvalidateFits(c: Config, s: Shelf, tag: string)
    requires Listed(s) && Fits(c, s)
    ensures Listed(InvalidateTag(s, tag)) && Fits(c, InvalidateTag(s, tag))
  {
    hide RemoveAll, Total, NoDup;
    if tag in s.index { RemoveAllFits(c, s, s.index[tag]); }
  }

  /** The registered records go, whether or not others carry the tag as well. */
  lemma InvalidateRegisters(s: Shelf, tag: string)
    ensures InvalidateTag(s, tag).records == s.records - (set k | k in Registered(s.index, tag))
    ensures Registers(s, InvalidateTag(s, tag))
  {
    hide RemoveAll;
    if tag in s.index {
      RemoveAllRecords(s, s.index[tag]);
      RemoveAllRegisters(s, s.index[tag]);
    } else {
      assert (set k | k in Registered(s.index, tag)) == {};
    }
  }

  lemma InvalidateStep(c: Config, w: World, op: Op, now: int)
    requires Inv(c, w) && w.now <= now && op.InvalidateOp?
    ensures Listed(w.st.shelf) && StepOk(c, w, op, now)
  {
    hide Good, Fits, IndexComplete, InvalidateTag, Live, Registers;
    GoodListed(w.st.shelf);
    var s := w.st.shelf;
    InvalidateGood(s, op.tag);
    InvalidateFits(c, s, op.tag);
    InvMatches(c, w, now);
    var a := set k | k in Registered(s.index, op.tag);
    var b := set k | k in w.model && op.tag in w.model[k].tags;
    forall k | k in s.records ensures k in a <==> k in b { assert AgreesOn(s, w.model, w.evicted, k); }
    InvalidateRegisters(s, op.tag);
    Removes(s, InvalidateTag(s, op.tag), w.model, w.evicted, now, a, b);
  }

  /** Every operation keeps the invariant and answers as the plain map does. */
  lemma EveryStep(c: Config, w: World, op: Op, now: int)
    requires Inv(c, w) && w.now <= now
    ensures Listed(w.st.shelf) && StepOk(c, w, op, now)
  {
    hide Inv, StepOk, Listed;
    match op
    case GetOp(_) => GetStep(c, w, op, now);
    case HasOp(_) => GetStep(c, w, op, now);
    case SetOp(_, _, _) => WriteStep(c, w, op, now);
    case CasOp(_, _, _) => WriteStep(c, w, op, now);
    case DeleteOp(_) => DeleteStep(c, w, op, now);
    case ClearOp(_) => ClearStep(c, w, op, now);
    case AddTagsOp(_, _) => TagStep(c, w, op, now);
    case InvalidateOp(_) => InvalidateStep(c, w, op, now);
  }

  // ----- Runs

  datatype Call = Call(op: Op, now: int)

  /** Clock readings do not go back. */
  predicate Forward(calls: seq<Call>, start: int) {
    calls == [] || (start <= calls[0].now && Forward(calls[1..], calls[0].now))
  }

  ghost predicate Reaches(c: Config, w: World, calls: seq<Call>, w': World)
    decreases |calls|
  {
    if calls == [] then w == w'
    else Listed(w.st.shelf) && Reaches(c, Step(c, w, calls[0].op, calls[0].now), calls[1..], w')
  }

  function Start(now: int): World {
    World(State(EMPTY, 0), map[], map[], {}, false, now)
  }

  lemma StartOk(c: Config, now: int)
    ensures Inv(c, Start(now))
  {
  }

  lemma {:induction false} RunKeeps(c: Config, w: World, calls: seq<Call>, w': World)
    requires Inv(c, w) && Forward(calls, w.now) && Reaches(c, w, calls, w')
    ensures Inv(c, w')
    decreases |calls|
  {
    hide Inv, Step, Perform, Answer;
    if calls != [] {
      EveryStep(c, w, calls[0].op, calls[0].now);
      StepTime(c, w, calls[0].op, calls[0].now);
      RunKeeps(c, Step(c, w, calls[0].op, calls[0].now), calls[1..], w');
    }
  }

  lemma StepTime(c: Config, w: World, op: Op, now: int)
    requires Listed(w.st.shelf)
    ensures Step(c, w, op, now).now == now
  {
    hide Perform, Apply, Stores, Base, Place, Overflows;
  }

  /**
   * After any run from the empty storage the next reply is that of a map in which a key loses a tag only when it
   * is dropped from the set of the tag. While no set has outgrown its limit this is the plain map; that holds
   * throughout when the entry limit is below the index limit. Both budgets always hold.
   */
  lemma MemoryIsAMap(c: Config, start: int, calls: seq<Call>, w: World, op: Op, now: int)
    requires Forward(calls, start) && Reaches(c, Start(start), calls, w) && w.now <= now
    ensures Listed(w.st.shelf) && Fits(c, w.st.shelf)
    ensures Perform(c, w.st, op, now).0 == Answer(w.model, w.evicted, op, now)
    ensures !w.overflowed ==> w.model == w.plain
    ensures c.maxEntries < c.tagIndexLimit ==> !w.overflowed
  {
    hide Perform, Answer, Step;
    StartOk(c, start);
    RunKeeps(c, Start(start), calls, w);
    EveryStep(c, w, op, now);
  }

  /**
   * After any run: invalidating a tag removes a record exactly when its key has not lost the tag, and a record
   * that carries the tag and stays has lost it.
   */
  lemma InvalidationSparesDropped(c: Config, start: int, calls: seq<Call>, w: World, tag: string, now: int, k: string)
    requires Forward(calls, start) && Reaches(c, Start(start), calls, w) && w.now <= now && k in w.st.shelf.records
    ensures k in w.model && Listed(w.st.shelf)
    ensures k in Step(c, w, InvalidateOp(tag), now).st.shelf.records <==> tag !in w.model[k].tags
    ensures tag in w.model[k].tags ==> tag in w.st.shelf.records[k].tags
    ensures !w.overflowed ==> (tag in w.model[k].tags <==> tag in w.st.shelf.records[k].tags)
  {
    hide Reaches, InvalidateTag, Fits, Live;
    StartOk(c, start);
    RunKeeps(c, Start(start), calls, w);
    var s := w.st.shelf;
    assert AgreesOn(s, w.model, w.evicted, k);
    InvalidateRegisters(s, tag);
    if tag in s.index && k in s.index[tag] { assert Carries(s, k, tag); }
  }

  /** The first two records of a tag whose set holds one key. */
  lemma SecondPlaced(c: Config, e: CacheEntry, t: string, a: string, b: string)
    requires c.tagIndexLimit == 1 && TagsOf(e) == [t] && a != b
    ensures var r := Record(e, EntrySize(e), [t]);
            var first, second := Place(c, EMPTY, a, e), Place(c, Place(c, EMPTY, a, e), b, e);
            first == Shelf([a], map[a := r], map[t := [a]])
            && second == Shelf([a, b], map[a := r, b := r], map[t := [b]])
  {
    var r := Record(e, EntrySize(e), [t]);
    var none: seq<string> := [];
    assert none + [a] == [a] && [a] + [b] == [a, b] && [a, b][1..] == [b];
    assert Place(c, EMPTY, a, e) == Shelf([a], map[a := r], map[t := [a]]);
    var first := Shelf([a], map[a := r], map[t := [a]]);
    assert Remove(first, b) == first;
    assert Register(first.index, b, [t], 1) == map[t := [b]];
  }

  lemma RoomForTwo(c: Config, e: CacheEntry, t: string, a: string, b: string)
    requires c.maxEntries >= 2 && c.maxSizeBytes >= 2 * EntrySize(e) && a != b
    ensures var r := Record(e, EntrySize(e), [t]);
            var first, second := Shelf([a], map[a := r], map[t := [a]]),
                Shelf([a, b], map[a := r, b := r], map[t := [b]]);
            Listed(first) && Fits(c, first) && Listed(second) && Fits(c, second)
  {
    hide EntrySize;
    var r := Record(e, EntrySize(e), [t]);
    assert [a][1..] == [] && [a, b][1..] == [b] && [b][1..] == [];
    var one, two := map[a := r], map[a := r, b := r];
    assert Total([], one) == 0 && Total([], two) == 0;
    assert Total([a], one) == r.size;
    assert Total([b], two) == r.size;
    assert Total([a, b], two) == 2 * r.size;
  }

  /** A write that fits is a placement. */
  lemma SetPlaces(c: Config, w: World, key: string, e: CacheEntry)
    requires !c.sweeps && Listed(w.st.shelf)
    requires Listed(Place(c, w.st.shelf, key, e)) && Fits(c, Place(c, w.st.shelf, key, e))
    ensures var w' := Step(c, w, SetOp(key, e, false), w.now);
            w'.st == w.st.(shelf := Place(c, w.st.shelf, key, e)) && w'.now == w.now
            && w'.plain == w.plain[key := Ref(e, TagSet(TagsOf(e)))] && w'.evicted == w.evicted - {key}
  {
    hide Place, Untagged, Overflows;
  }

  /**
   * With room for one key per tag: of two records that carry a tag the older outlives its invalidation, while the
   * plain map has lost it.
   */
  lemma DroppedKeyIsSpared(c: Config, e: CacheEntry, t: string, a: string, b: string, now: int)
    requires !c.sweeps && c.tagIndexLimit == 1 && c.maxEntries >= 2 && c.maxSizeBytes >= 2 * EntrySize(e)
    requires TagsOf(e) == [t] && Live(e, now) && a != b
    ensures exists w ::
      Reaches(c, Start(now), [Call(SetOp(a, e, false), now)]
          + ([Call(SetOp(b, e, false), now)] + ([Call(InvalidateOp(t), now)] + [])), w)
      && Listed(w.st.shelf) && Perform(c, w.st, HasOp(a), now).0 == Flag(true)
         && Answer(w.plain, w.evicted, HasOp(a), now) == Flag(false)
  {
    hide Reaches, Live, EntrySize, Place, Untagged, Listed, Fits, Overflows;
    var w0 := Start(now);
    SecondPlaced(c, e, t, a, b);
    RoomForTwo(c, e, t, a, b);
    StartOk(c, now);
    GoodListed(EMPTY);
    SetPlaces(c, w0, a, e);
    var w1 := Step(c, w0, SetOp(a, e, false), now);
    SetPlaces(c, w1, b, e);
    var w2 := Step(c, w1, SetOp(b, e, false), now);
    var w3 := Step(c, w2, InvalidateOp(t), now);
    InvalidateListed(w2.st.shelf, t);
    InvalidateRegisters(w2.st.shelf, t);
    assert w3.st.shelf.records[a].entry == e;
    assert a in w2.plain && t in w2.plain[a].tags;
    assert a !in w3.plain;
    assert w3.st == Perform(c, w2.st, InvalidateOp(t), now).1;
    assert Perform(c, w3.st, HasOp(a), now).0 == Flag(true);
    ReachesNone(c, w3);
    ReachesFirst(c, w2, Call(InvalidateOp(t), now), [], w3);
    ReachesFirst(c, w1, Call(SetOp(b, e, false), now), [Call(InvalidateOp(t), now)] + [], w3);
    ReachesFirst(c, w0, Call(SetOp(a, e, false), now), [Call(SetOp(b, e, false), now)]
        + ([Call(InvalidateOp(t), now)] + []), w3);
  }

  lemma ReachesNone(c: Config, w: World)
    ensures Reaches(c, w, [], w)
  {
  }

  lemma ReachesFirst(c: Config, w: World, call: Call, rest: seq<Call>, w': World)
    requires Listed(w.st.shelf) && Reaches(c, Step(c, w, call.op, call.now), rest, w')
    ensures Reaches(c, w, [call] + rest, w')
  {
    hide Step;
    assert ([call] + rest)[1..] == rest;
  }

  lemma InvalidateListed(s: Shelf, tag: string)
    requires Listed(s)
    ensures Listed(InvalidateTag(s, tag))
  {
    hide RemoveAll, NoDup;
    if tag in s.index { RemoveAllListed(s, s.index[tag]); }
  }

  // ----- What the size limit bounds

  /** The payload bytes held, and 64 for each entry. */
  function HeldBytes(order: seq<string>, records: map<string, Record>): nat
    requires forall k :: k in order ==> k in records
  {
    if order == [] then 0 else |records[order[0]].entry.value| + 64 + HeldBytes(order[1..], records)
  }

  lemma {:induction false} HeldWithinTotal(order: seq<string>, records: map<string, Record>)
    requires forall k :: k in order ==> k in records && records[k].size == EntrySize(records[k].entry)
    ensures HeldBytes(order, records) <= Total(order, records)
  {
    hide EntrySize;
    if order != [] {
      HeldWithinTotal(order[1..], records);
      PayloadCounts(records[order[0]].entry);
    }
  }

  lemma PayloadCounts(e: CacheEntry)
    ensures EntrySize(e) >= |e.value| + 64
  {
  }

  /**
   * After every run the payloads of all stored entries, with 64 bytes for each of them, are within the size limit,
   * and their number is within the entry limit.
   */
  lemma HeldWithinLimits(c: Config, start: int, calls: seq<Call>, w: World)
    requires Forward(calls, start) && Reaches(c, Start(start), calls, w)
    ensures var s := w.st.shelf;
            (forall k :: k in s.order <==> k in s.records) && NoDup(s.order) && |s.records| <= c.maxEntries
            && HeldBytes(s.order, s.records) <= c.maxSizeBytes
  {
    hide Reaches, Total, HeldBytes, Live;
    StartOk(c, start);
    RunKeeps(c, Start(start), calls, w);
    var s := w.st.shelf;
    HeldWithinTotal(s.order, s.records);
    ListedOnce(s);
  }

  lemma ListedOnce(s: Shelf)
    requires Listed(s)
    ensures |s.records| == |s.order|
  {
    OrderSize(s.order);
    assert s.records.Keys == set k | k in s.order;
  }

  lemma {:induction false} OrderSize(order: seq<string>)
    requires NoDup(order)
    ensures |set k | k in order| == |order|
  {
    if order != [] {
      OrderSize(order[1..]);
      assert (set k | k in order) == {order[0]} + (set k | k in order[1..]);
    }
  }

  // ----- Sweeping

  /** When the interval has passed since the last sweep, no expired record is left; before that nothing is swept. */
  lemma SweepsWhenDue(c: Config, st: State, now: int)
    requires Listed(st.shelf)
    ensures var t := MaybeSweep(c, st, now);
            if c.sweeps && now >= st.lastSweep + c.interval then
              t.lastSweep == now && (forall k :: k in t.shelf.records ==> Live(t.shelf.records[k].entry, now))
              && forall k :: k in st.shelf.records && Live(st.shelf.records[k].entry, now) ==>
                   k in t.shelf.records && t.shelf.records[k] == st.shelf.records[k]
            else t == st
  {
    hide Sweep, Live;
    SweepExact(st.shelf, now);
  }
}
