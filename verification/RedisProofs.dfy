/**
 * Properties of the Redis bookkeeping: the script and the step-by-step path agree, a live entry is always
 * registered for its tags so that invalidation leaves none, and when a rewrite leaves nothing behind.
 */
module RedisProofs {
  import opened Wrappers
  import opened Strings
  import opened Entries
  import opened RedisModel

  // ----- Two ways to write

  /** A foreign value that the script takes for a conflict and the other path for a miss. */
  predicate Disputed(current: Option<Blob>, expected: Expected) {
    current.Some? && current.value.Foreign? && current.value.text != "" && expected == Exactly(None)
  }

  /**
   * The two paths give the same result and the same data exactly when the stored value decodes, is not a
   * disputed foreign value, and an accepted write has no TTL or one of at least a millisecond.
   */
  lemma SameWriteIff(db: Db, name: string, expected: Expected, blob: Blob, ttlMs: Option<int>, ids: seq<TagId>,
      now: int, useIndex: bool)
    ensures var current := Lookup(db.store, name, now);
            ScriptWrite(db, name, expected, blob, ttlMs, ids, now, useIndex)
                == StepwiseWrite(db, name, expected, blob, ttlMs, ids, now, useIndex)
            <==> !(current.Some? && current.value.Broken?) && !Disputed(current, expected)
                 && (ScriptAccepts(current, expected) && ttlMs.Some? ==> ttlMs.value >= 1)
  {
    hide SaddEach, SremEach, SaddRefs;
    var current := Lookup(db.store, name, now);
    if !(current.Some? && current.value.Broken?) {
      SameVerdict(current, expected);
      SameExpiry(db, name, blob, ttlMs, ids, now, useIndex);
    }
  }

  lemma SameVerdict(current: Option<Blob>, expected: Expected)
    requires !(current.Some? && current.value.Broken?)
    ensures ScriptAccepts(current, expected) == StepwiseAccepts(Decode(current).value, expected)
            <==> !Disputed(current, expected)
  {
  }

  lemma SameExpiry(db: Db, name: string, blob: Blob, ttlMs: Option<int>, ids: seq<TagId>, now: int, useIndex: bool)
    ensures Rewrite(db, name, blob, ScriptExpiry(ttlMs, now), ids, useIndex)
            == Rewrite(db, name, blob, StepwiseExpiry(ttlMs, now), ids, useIndex)
            <==> (ttlMs.Some? ==> ttlMs.value >= 1)
  {
    hide SaddEach, SremEach, SaddRefs;
    var a, b := Rewrite(db, name, blob, ScriptExpiry(ttlMs, now), ids, useIndex),
        Rewrite(db, name, blob, StepwiseExpiry(ttlMs, now), ids, useIndex);
    assert a.store[name].expiresAt == ScriptExpiry(ttlMs, now) && b.store[name].expiresAt == StepwiseExpiry(ttlMs, now);
  }

  // ----- Memberships

  predicate In(sets: map<TagId, seq<string>>, id: TagId, name: string) {
    id in sets && name in sets[id]
  }

  lemma {:induction false} Left(sets: map<TagId, seq<string>>, ids: seq<TagId>, name: string, id: TagId, n: string)
    ensures In(SremEach(sets, ids, name), id, n) <==> In(sets, id, n) && !(n == name && id in ids)
  {
    if ids != [] {
      Left(sets, ids[..|ids| - 1], name, id, n);
      assert ids == ids[..|ids| - 1] + [ids[|ids| - 1]];
    }
  }

  lemma {:induction false} Joined(sets: map<TagId, seq<string>>, ids: seq<TagId>, name: string, id: TagId, n: string)
    ensures In(SaddEach(sets, ids, name), id, n) <==> In(sets, id, n) || (n == name && id in ids)
  {
    if ids != [] {
      Joined(sets, ids[..|ids| - 1], name, id, n);
      assert ids == ids[..|ids| - 1] + [ids[|ids| - 1]];
    }
  }

  lemma {:induction false} Noted(refs: map<string, seq<TagId>>, name: string, ids: seq<TagId>, n: string, id: TagId)
    ensures id in RefsOf(SaddRefs(refs, name, ids), n) <==> id in RefsOf(refs, n) || (n == name && id in ids)
  {
    if ids != [] {
      Noted(refs, name, ids[..|ids| - 1], n, id);
      assert ids == ids[..|ids| - 1] + [ids[|ids| - 1]];
    }
  }

  /** After a write the key belongs to the new tags, and to those old ones that its reverse set did not list. */
  lemma RewriteMembers(db: Db, name: string, blob: Blob, expiry: Deadline, ids: seq<TagId>, useIndex: bool, id: TagId,
      n: string)
    ensures In(Rewrite(db, name, blob, expiry, ids, useIndex).tagSets, id, n) <==>
            (if n == name then id in ids || (In(db.tagSets, id, name) && id !in RefsOf(db.refs, name))
                else In(db.tagSets, id, n))
  {
    hide SaddEach, SremEach, SaddRefs;
    Left(db.tagSets, RefsOf(db.refs, name), name, id, n);
    Joined(SremEach(db.tagSets, RefsOf(db.refs, name), name), ids, name, id, n);
  }

  /** The memberships of a key are all listed in its reverse set. */
  ghost predicate Mirrored(db: Db, name: string) {
    forall id :: In(db.tagSets, id, name) ==> id in RefsOf(db.refs, name)
  }

  /** A rewrite leaves exactly the new memberships when the old ones it drops were all listed, and only then. */
  lemma RewriteExactIff(db: Db, name: string, blob: Blob, expiry: Deadline, ids: seq<TagId>, useIndex: bool)
    ensures (forall id :: In(Rewrite(db, name, blob, expiry, ids, useIndex).tagSets, id, name) <==> id in ids)
            <==> (forall id :: In(db.tagSets, id, name) && id !in ids ==> id in RefsOf(db.refs, name))
  {
    hide Rewrite, In;
    forall id ensures In(Rewrite(db, name, blob, expiry, ids, useIndex).tagSets, id, name)
                 <==> id in ids || (In(db.tagSets, id, name) && id !in RefsOf(db.refs, name))
    {
      RewriteMembers(db, name, blob, expiry, ids, useIndex, id, name);
    }
  }

  // ----- Runs

  datatype Op =
    | WriteOp(name: string, entry: CacheEntry, ttlMs: Option<int>, expected: Expected, scripted: bool)
    | AddTagsOp(name: string, tags: seq<string>)
    | DeleteOp(name: string) | DeleteManyOp(names: seq<string>)
    | InvalidateOp(tag: string) | ClearOp(prefix: string)
    | LockOp(name: string, token: string, lockMs: int) | UnlockOp(name: string, token: string)
    | RefsExpire(name: string)

  datatype Settings = Settings(namespace: string, useIndex: bool)

  /** Data and, for each key, the tags given to it by its last write and since. */
  datatype World = World(db: Db, carried: map<string, set<TagId>>, now: int)

  function IdSet(ids: seq<TagId>): set<TagId> {
    set id | id in ids
  }

  function CarriedBy(carried: map<string, set<TagId>>, name: string): set<TagId> {
    if name in carried then carried[name] else {}
  }

  function Written(s: Settings, db: Db, op: Op, now: int): (Result<bool, DecodeError>, Db)
    requires op.WriteOp?
  {
    var ids := TagIds(s.namespace, TagsOf(op.entry));
    if op.scripted then ScriptWrite(db, op.name, op.expected, Envelope(op.entry), op.ttlMs, ids, now, s.useIndex)
    else StepwiseWrite(db, op.name, op.expected, Envelope(op.entry), op.ttlMs, ids, now, s.useIndex)
  }

  function Step(s: Settings, w: World, op: Op, now: int): World {
    match op
    case WriteOp(name, entry, _, _, _) =>
      var (result, db) := Written(s, w.db, op, now);
      World(db, if result == Ok(true) then w.carried[name := IdSet(TagIds(s.namespace, TagsOf(entry)))]
          else w.carried, now)
    case AddTagsOp(name, tags) =>
      World(AddTags(w.db, name, TagIds(s.namespace, tags)),
            w.carried[name := CarriedBy(w.carried, name) + IdSet(TagIds(s.namespace, tags))], now)
    case DeleteOp(name) => World(Delete(w.db, name, s.useIndex), w.carried, now)
    case DeleteManyOp(names) => World(DeleteMany(w.db, names, s.useIndex), w.carried, now)
    case InvalidateOp(tag) => World(InvalidateTag(w.db, TagId(s.namespace, tag)), w.carried, now)
    case ClearOp(prefix) => World(if s.useIndex then ClearIndexed(w.db, prefix) else w.db, w.carried, now)
    case LockOp(name, token, lockMs) =>
      if Lookup(w.db.store, name, now).Some? then w.(now := now)
      else World(w.db.(store := w.db.store[name := Stored(Foreign(token), At(now + AtLeastOne(lockMs)))]), w.carried,
          now)
    case UnlockOp(name, token) =>
      if Lookup(w.db.store, name, now) != Some(Foreign(token)) then w.(now := now)
      else World(w.db.(store := w.db.store - {name}), w.carried, now)
    case RefsExpire(name) => World(w.db.(refs := w.db.refs - {name}), w.carried, now)
  }

  /** A live entry under the name. */
  predicate Holds(store: map<string, Stored>, name: string, now: int) {
    Lookup(store, name, now).Some? && Lookup(store, name, now).value.Envelope?
  }

  predicate Registered(s: Settings, w: World, name: string) {
    Holds(w.db.store, name, w.now) ==>
      (forall t :: t in TagsOf(w.db.store[name].blob.entry) ==> TagId(s.namespace, t) in CarriedBy(w.carried, name)) &&
      (forall id :: id in CarriedBy(w.carried, name) ==> In(w.db.tagSets, id, name))
  }

  /** Every live entry is registered for every tag it carries. */
  predicate Inv(s: Settings, w: World) {
    forall name :: name in w.db.store ==> Registered(s, w, name)
  }

  /** An entry that lives on was registered before, and what concerned it did not change. */
  lemma Untouched(s: Settings, w: World, w': World, name: string)
    requires Inv(s, w) && w.now <= w'.now
    requires name in w'.db.store ==> name in w.db.store && w'.db.store[name] == w.db.store[name]
    requires CarriedBy(w'.carried, name) == CarriedBy(w.carried, name)
    requires forall id :: id in CarriedBy(w.carried, name) && In(w.db.tagSets, id, name) ==> In(w'.db.tagSets, id, name)
    ensures name in w'.db.store ==> Registered(s, w', name)
  {
    hide In, CarriedBy;
    if name in w'.db.store && Holds(w'.db.store, name, w'.now) {
      assert Registered(s, w, name);
      assert Holds(w.db.store, name, w.now);
    }
  }

  lemma WriteStep(s: Settings, w: World, op: Op, now: int)
    requires Inv(s, w) && w.now <= now && op.WriteOp?
    ensures Inv(s, Step(s, w, op, now))
  {
    hide In, Rewrite, Registered, ScriptAccepts, StepwiseAccepts, Decode;
    var w' := Step(s, w, op, now);
    var ids := TagIds(s.namespace, TagsOf(op.entry));
    var expiry := if op.scripted then ScriptExpiry(op.ttlMs, now) else StepwiseExpiry(op.ttlMs, now);
    var done := Rewrite(w.db, op.name, Envelope(op.entry), expiry, ids, s.useIndex);
    if Written(s, w.db, op, now).0 == Ok(true) {
      assert w'.db == done;
      RewriteStore(w.db, op.name, Envelope(op.entry), expiry, ids, s.useIndex);
      forall name | name in w'.db.store ensures Registered(s, w', name) {
        forall id ensures In(done.tagSets, id, name) <==>
          (if name == op.name then id in ids || (In(w.db.tagSets, id, op.name) && id !in RefsOf(w.db.refs, op.name))
              else In(w.db.tagSets, id, name))
        {
          RewriteMembers(w.db, op.name, Envelope(op.entry), expiry, ids, s.useIndex, id, name);
        }
        if name == op.name { JustWritten(s, w', op.name, op.entry, ids); } else { Untouched(s, w, w', name); }
      }
    } else {
      assert w'.db == w.db;
      forall name | name in w'.db.store ensures Registered(s, w', name) { Untouched(s, w, w', name); }
    }
  }

  lemma RewriteStore(db: Db, name: string, blob: Blob, expiry: Deadline, ids: seq<TagId>, useIndex: bool)
    ensures Rewrite(db, name, blob, expiry, ids, useIndex).store == db.store[name := Stored(blob, expiry)]
  {
  }

  lemma JustWritten(s: Settings, w: World, name: string, entry: CacheEntry, ids: seq<TagId>)
    requires name in w.db.store && w.db.store[name].blob == Envelope(entry)
    requires ids == TagIds(s.namespace, TagsOf(entry)) && CarriedBy(w.carried, name) == IdSet(ids)
    requires forall id :: id in ids ==> In(w.db.tagSets, id, name)
    ensures Registered(s, w, name)
  {
    var tags := TagsOf(entry);
    forall t | t in tags ensures TagId(s.namespace, t) in IdSet(ids) {
      var i :| 0 <= i < |tags| && tags[i] == t;
      assert ids[i] == TagId(s.namespace, t);
    }
  }

  lemma AddTagsStep(s: Settings, w: World, op: Op, now: int)
    requires Inv(s, w) && w.now <= now && op.AddTagsOp?
    ensures Inv(s, Step(s, w, op, now))
  {
    hide In, SaddEach, SaddRefs;
    var w' := Step(s, w, op, now);
    var ids := TagIds(s.namespace, op.tags);
    forall name | name in w'.db.store ensures Registered(s, w', name) {
      forall id ensures In(w'.db.tagSets, id, name) <==> In(w.db.tagSets, id, name) || (name == op.name && id in ids) {
        Joined(w.db.tagSets, ids, op.name, id, name);
      }
      assert Registered(s, w, name);
      assert Holds(w'.db.store, name, now) ==> Holds(w.db.store, name, w.now);
    }
  }

  lemma RemoveStep(s: Settings, w: World, op: Op, now: int)
    requires Inv(s, w) && w.now <= now && !op.WriteOp? && !op.AddTagsOp? && !op.LockOp?
    ensures Inv(s, Step(s, w, op, now))
  {
    hide In, Registered, WithoutAll, Matching;
    var w' := Step(s, w, op, now);
    forall name | name in w'.db.store ensures Registered(s, w', name) {
      if op.InvalidateOp? { MembersAreIn(w.db, w'.db, TagId(s.namespace, op.tag), name); }
      Untouched(s, w, w', name);
    }
  }

  lemma MembersAreIn(db: Db, db': Db, id: TagId, name: string)
    requires db' == InvalidateTag(db, id) && name in db'.store
    ensures forall i :: In(db.tagSets, i, name) ==> In(db'.tagSets, i, name)
  {
  }

  lemma LockStep(s: Settings, w: World, op: Op, now: int)
    requires Inv(s, w) && w.now <= now && op.LockOp?
    ensures Inv(s, Step(s, w, op, now))
  {
    hide In, Registered;
    var w' := Step(s, w, op, now);
    forall name | name in w'.db.store ensures Registered(s, w', name) {
      if name == op.name && w'.db != w.db { ForeignRegistered(s, w', name); } else { Untouched(s, w, w', name); }
    }
  }

  lemma ForeignRegistered(s: Settings, w: World, name: string)
    requires name in w.db.store && w.db.store[name].blob.Foreign?
    ensures Registered(s, w, name)
  {
  }

  lemma EveryStep(s: Settings, w: World, op: Op, now: int)
    requires Inv(s, w) && w.now <= now
    ensures Inv(s, Step(s, w, op, now)) && Step(s, w, op, now).now == now
  {
    hide Inv, Written;
    match op
    case WriteOp(_, _, _, _, _) => WriteStep(s, w, op, now);
    case AddTagsOp(_, _) => AddTagsStep(s, w, op, now);
    case LockOp(_, _, _) => LockStep(s, w, op, now);
    case _ => RemoveStep(s, w, op, now);
  }

  datatype Call = Call(op: Op, now: int)

  predicate Forward(calls: seq<Call>, start: int) {
    calls == [] || (start <= calls[0].now && Forward(calls[1..], calls[0].now))
  }

  function Run(s: Settings, w: World, calls: seq<Call>): World
    decreases |calls|
  {
    if calls == [] then w else Run(s, Step(s, w, calls[0].op, calls[0].now), calls[1..])
  }

  lemma {:induction false} RunKeeps(s: Settings, w: World, calls: seq<Call>)
    requires Inv(s, w) && Forward(calls, w.now)
    ensures Inv(s, Run(s, w, calls))
    decreases |calls|
  {
    hide Inv, Step;
    if calls != [] {
      EveryStep(s, w, calls[0].op, calls[0].now);
      RunKeeps(s, Step(s, w, calls[0].op, calls[0].now), calls[1..]);
    }
  }

  function Empty(now: int): World {
    World(Db(map[], map[], map[], []), map[], now)
  }

  /**
   * After any run, invalidating a tag leaves no live entry that carries it, whether the tag was written with
   * the entry or added later.
   */
  lemma InvalidationIsComplete(s: Settings, start: int, calls: seq<Call>, tag: string, now: int, name: string)
    requires Forward(calls, start) && Run(s, Empty(start), calls).now <= now
    ensures var w := Step(s, Run(s, Empty(start), calls), InvalidateOp(tag), now);
            Holds(w.db.store, name, now) ==>
              tag !in TagsOf(w.db.store[name].blob.entry) && TagId(s.namespace, tag) !in CarriedBy(w.carried, name)
  {
    hide Run;
    RunKeeps(s, Empty(start), calls);
    var w := Run(s, Empty(start), calls);
    var w' := Step(s, w, InvalidateOp(tag), now);
    if Holds(w'.db.store, name, now) {
      assert name in w.db.store && Holds(w.db.store, name, w.now);
      assert Registered(s, w, name);
      assert !In(w.db.tagSets, TagId(s.namespace, tag), name);
    }
  }

  // ----- Memberships left behind

  /** The operation drops the reverse set of the key: single deletion, and expiry. */
  predicate Forgets(op: Op, name: string) {
    (op.DeleteOp? || op.RefsExpire?) && op.name == name
  }

  /**
   * Memberships of a key and its reverse set stay in step, except when its reverse set is dropped while it is
   * a member of some tag set.
   */
  lemma MirrorKeptIff(s: Settings, w: World, op: Op, now: int, name: string)
    requires Mirrored(w.db, name)
    ensures Mirrored(Step(s, w, op, now).db, name) <==> !(Forgets(op, name) && exists id :: In(w.db.tagSets, id, name))
  {
    hide In, RefsOf, Step;
    if Forgets(op, name) {
      Forgotten(s, w, op, now);
    } else {
      forall id | In(Step(s, w, op, now).db.tagSets, id, name) ensures id in RefsOf(Step(s, w, op, now).db.refs, name) {
        MembershipNoted(s, w, op, now, name, id);
      }
    }
  }

  lemma Forgotten(s: Settings, w: World, op: Op, now: int)
    requires op.DeleteOp? || op.RefsExpire?
    ensures Step(s, w, op, now).db.tagSets == w.db.tagSets && RefsOf(Step(s, w, op, now).db.refs, op.name) == []
  {
  }

  lemma MembershipNoted(s: Settings, w: World, op: Op, now: int, name: string, id: TagId)
    requires Mirrored(w.db, name) && !Forgets(op, name) && In(Step(s, w, op, now).db.tagSets, id, name)
    ensures id in RefsOf(Step(s, w, op, now).db.refs, name)
  {
    hide In, Rewrite, SaddEach, SaddRefs, SremEach, WithoutAll, Matching;
    var w' := Step(s, w, op, now);
    match op
    case WriteOp(_, _, _, _, _) => if w'.db != w.db { WriteMembershipNoted(s, w, op, now, name, id); }
    case AddTagsOp(n, tags) =>
      var ids := TagIds(s.namespace, tags);
      Joined(w.db.tagSets, ids, n, id, name);
      Noted(w.db.refs, n, ids, name, id);
    case InvalidateOp(tag) => StillIn(w.db, TagId(s.namespace, tag), id, name);
    case _ =>
  }

  lemma WriteMembershipNoted(s: Settings, w: World, op: Op, now: int, name: string, id: TagId)
    requires Mirrored(w.db, name) && op.WriteOp? && Step(s, w, op, now).db != w.db
             && In(Step(s, w, op, now).db.tagSets, id, name)
    ensures id in RefsOf(Step(s, w, op, now).db.refs, name)
  {
    hide In, Rewrite, RefsOf, ScriptAccepts, StepwiseAccepts, Decode;
    var ids := TagIds(s.namespace, TagsOf(op.entry));
    var expiry := if op.scripted then ScriptExpiry(op.ttlMs, now) else StepwiseExpiry(op.ttlMs, now);
    assert Step(s, w, op, now).db == Rewrite(w.db, op.name, Envelope(op.entry), expiry, ids, s.useIndex);
    RewriteMembers(w.db, op.name, Envelope(op.entry), expiry, ids, s.useIndex, id, name);
    RewriteRefs(w.db, op.name, Envelope(op.entry), expiry, ids, s.useIndex, id, name);
  }

  /** Reverse sets list only tags that the last write gave the key or that were added since. */
  ghost predicate RefsCarried(w: World, name: string) {
    forall id :: id in RefsOf(w.db.refs, name) ==> id in CarriedBy(w.carried, name)
  }

  lemma RefsCarriedKept(s: Settings, w: World, op: Op, now: int, name: string)
    requires RefsCarried(w, name)
    ensures RefsCarried(Step(s, w, op, now), name)
  {
    hide Rewrite, SaddEach, SaddRefs, SremEach, WithoutAll, Matching, ScriptAccepts, StepwiseAccepts, Decode;
    var w' := Step(s, w, op, now);
    forall id | id in RefsOf(w'.db.refs, name) ensures id in CarriedBy(w'.carried, name) {
      match op
      case WriteOp(_, _, _, _, _) =>
        var ids := TagIds(s.namespace, TagsOf(op.entry));
        var expiry := if op.scripted then ScriptExpiry(op.ttlMs, now) else StepwiseExpiry(op.ttlMs, now);
        RewriteRefs(w.db, op.name, Envelope(op.entry), expiry, ids, s.useIndex, id, name);
      case AddTagsOp(n, tags) => Noted(w.db.refs, n, TagIds(s.namespace, tags), name, id);
      case _ =>
    }
  }

  /** The operation gives the key the tag: an accepted write of an entry with it, or adding it. */
  predicate Gives(s: Settings, w: World, op: Op, now: int, name: string, id: TagId) {
    (op.WriteOp? && op.name == name && Written(s, w.db, op, now).0 == Ok(true)
     && id in TagIds(s.namespace, TagsOf(op.entry)))
    || (op.AddTagsOp? && op.name == name && id in TagIds(s.namespace, op.tags))
  }

  /**
   * Whether a membership has gone astray after some calls: the reverse set of the key was dropped while the key
   * was a member, and since then the tag was neither invalidated nor given to the key again.
   */
  predicate Astray(s: Settings, w: World, calls: seq<Call>, name: string, id: TagId, before: bool)
    decreases |calls|
  {
    if calls == [] then before
    else
      var Call(op, now) := calls[0];
      Astray(s, Step(s, w, op, now), calls[1..], name, id,
        if Forgets(op, name) then In(w.db.tagSets, id, name)
        else before && !Gives(s, w, op, now, name, id) && !(op.InvalidateOp? && TagId(s.namespace, op.tag) == id))
  }

  /** A member whose reverse set does not list the tag. */
  predicate Stray(db: Db, name: string, id: TagId) {
    In(db.tagSets, id, name) && id !in RefsOf(db.refs, name)
  }

  lemma StrayAfterWrite(s: Settings, w: World, op: Op, now: int, name: string, id: TagId)
    requires op.WriteOp?
    ensures Stray(Step(s, w, op, now).db, name, id) <==> Stray(w.db, name, id) && !Gives(s, w, op, now, name, id)
  {
    hide In, Rewrite, RefsOf, ScriptAccepts, StepwiseAccepts, Decode;
    if Written(s, w.db, op, now).0 == Ok(true) {
      var ids := TagIds(s.namespace, TagsOf(op.entry));
      var expiry := if op.scripted then ScriptExpiry(op.ttlMs, now) else StepwiseExpiry(op.ttlMs, now);
      assert Step(s, w, op, now).db == Rewrite(w.db, op.name, Envelope(op.entry), expiry, ids, s.useIndex);
      RewriteMembers(w.db, op.name, Envelope(op.entry), expiry, ids, s.useIndex, id, name);
      RewriteRefs(w.db, op.name, Envelope(op.entry), expiry, ids, s.useIndex, id, name);
    } else {
      assert Step(s, w, op, now).db == w.db;
    }
  }

  lemma StrayAfter(s: Settings, w: World, op: Op, now: int, name: string, id: TagId)
    ensures Stray(Step(s, w, op, now).db, name, id) <==>
              if Forgets(op, name) then In(w.db.tagSets, id, name)
              else Stray(w.db, name, id) && !Gives(s, w, op, now, name, id)
                   && !(op.InvalidateOp? && TagId(s.namespace, op.tag) == id)
  {
    hide Rewrite, SaddEach, SaddRefs, SremEach, WithoutAll, Matching, Written;
    match op
    case WriteOp(_, _, _, _, _) => StrayAfterWrite(s, w, op, now, name, id);
    case AddTagsOp(n, tags) =>
      var ids := TagIds(s.namespace, tags);
      Joined(w.db.tagSets, ids, n, id, name);
      Noted(w.db.refs, n, ids, name, id);
    case _ =>
  }

  lemma {:induction false} RunStray(s: Settings, w: World, calls: seq<Call>, name: string, id: TagId)
    requires RefsCarried(w, name)
    ensures Stray(Run(s, w, calls).db, name, id) <==> Astray(s, w, calls, name, id, Stray(w.db, name, id))
    ensures RefsCarried(Run(s, w, calls), name)
    decreases |calls|
  {
    hide RefsCarried, Stray, Step, Forgets, Gives;
    if calls != [] {
      StrayAfter(s, w, calls[0].op, calls[0].now, name, id);
      RefsCarriedKept(s, w, calls[0].op, calls[0].now, name);
      RunStray(s, Step(s, w, calls[0].op, calls[0].now), calls[1..], name, id);
    }
  }

  /**
   * After any run: invalidating a tag removes a live entry exactly when the entry carries the tag, from its last
   * write or added since, or its membership has gone astray.
   */
  lemma InvalidationIsExact(s: Settings, start: int, calls: seq<Call>, tag: string, now: int, name: string)
    requires Forward(calls, start) && Run(s, Empty(start), calls).now <= now
    requires Holds(Run(s, Empty(start), calls).db.store, name, now)
    ensures var w, id := Run(s, Empty(start), calls), TagId(s.namespace, tag);
            !Holds(Step(s, w, InvalidateOp(tag), now).db.store, name, now)
            <==> id in CarriedBy(w.carried, name) || Astray(s, Empty(start), calls, name, id, false)
  {
    hide Run, Astray, Inv, CarriedBy, RefsOf;
    var w, id := Run(s, Empty(start), calls), TagId(s.namespace, tag);
    NothingStray(s, start, name, id);
    RunStray(s, Empty(start), calls, name, id);
    RunKeeps(s, Empty(start), calls);
    LiveIsRegistered(s, w, name, now, id);
  }

  lemma NothingStray(s: Settings, start: int, name: string, id: TagId)
    ensures Inv(s, Empty(start)) && RefsCarried(Empty(start), name) && !Stray(Empty(start).db, name, id)
  {
  }

  lemma LiveIsRegistered(s: Settings, w: World, name: string, now: int, id: TagId)
    requires Inv(s, w) && w.now <= now && Holds(w.db.store, name, now)
    ensures id in CarriedBy(w.carried, name) ==> In(w.db.tagSets, id, name)
  {
    assert Registered(s, w, name);
  }

  /** The calls keep the reverse set of the key, whatever they do to other keys. */
  predicate Remembered(calls: seq<Call>, name: string) {
    forall i :: 0 <= i < |calls| ==> !Forgets(calls[i].op, name)
  }

  lemma {:induction false} RememberedNotAstray(s: Settings, w: World, calls: seq<Call>, name: string, id: TagId)
    requires Remembered(calls, name)
    ensures !Astray(s, w, calls, name, id, false)
    decreases |calls|
  {
    hide Step, Forgets, Gives;
    if calls != [] { RememberedNotAstray(s, Step(s, w, calls[0].op, calls[0].now), calls[1..], name, id); }
  }

  /**
   * While the reverse set of a key is not dropped, invalidation removes its live entry exactly when it carries the
   * tag.
   */
  lemma OnlyCarriersGo(s: Settings, start: int, calls: seq<Call>, tag: string, now: int, name: string)
    requires Forward(calls, start) && Run(s, Empty(start), calls).now <= now && Remembered(calls, name)
    requires Holds(Run(s, Empty(start), calls).db.store, name, now)
    ensures var w := Run(s, Empty(start), calls);
            Holds(Step(s, w, InvalidateOp(tag), now).db.store, name, now)
            <==> TagId(s.namespace, tag) !in CarriedBy(w.carried, name)
  {
    hide Run, Step, Holds, Astray, Remembered;
    InvalidationIsExact(s, start, calls, tag, now, name);
    RememberedNotAstray(s, Empty(start), calls, name, TagId(s.namespace, tag));
  }

  lemma RewriteRefs(db: Db, name: string, blob: Blob, expiry: Deadline, ids: seq<TagId>, useIndex: bool, id: TagId,
      n: string)
    ensures id in RefsOf(Rewrite(db, name, blob, expiry, ids, useIndex).refs, n)
            <==> if n == name then id in ids else id in RefsOf(db.refs, n)
  {
    hide SaddEach, SremEach, SaddRefs;
    Noted(db.refs - {name}, name, ids, n, id);
  }

  lemma StillIn(db: Db, gone: TagId, id: TagId, name: string)
    requires In(InvalidateTag(db, gone).tagSets, id, name)
    ensures In(db.tagSets, id, name)
  {
  }

  /** With memberships and reverse sets in step, a write leaves the key registered for its new tags only. */
  lemma MirroredRewriteIsExact(db: Db, name: string, blob: Blob, expiry: Deadline, ids: seq<TagId>, useIndex: bool,
      id: TagId)
    requires Mirrored(db, name)
    ensures In(Rewrite(db, name, blob, expiry, ids, useIndex).tagSets, id, name) <==> id in ids
  {
    hide Rewrite;
    RewriteMembers(db, name, blob, expiry, ids, useIndex, id, name);
  }

  /**
   * Deleting a key forgets its memberships without ending them: written again without tags, it is still
   * removed when its former tag is invalidated.
   */
  lemma DeletionLeavesMemberships(s: Settings, tagged: CacheEntry, plain: CacheEntry)
    requires TagsOf(tagged) == ["t"] && TagsOf(plain) == []
    ensures var w := Run(s, Empty(0), [Call(WriteOp("k", tagged, None, Any, true), 0), Call(DeleteOp("k"), 0),
            Call(WriteOp("k", plain, None, Any, true), 0)]);
            Holds(w.db.store, "k", 0) && CarriedBy(w.carried, "k") == {}
                && !Holds(Step(s, w, InvalidateOp("t"), 0).db.store, "k", 0)
  {
    var calls := [Call(WriteOp("k", tagged, None, Any, true), 0), Call(DeleteOp("k"), 0),
        Call(WriteOp("k", plain, None, Any, true), 0)];
    var id := TagId(s.namespace, "t");
    var w1 := Step(s, Empty(0), calls[0].op, 0);
    var w2 := Step(s, w1, calls[1].op, 0);
    var w3 := Step(s, w2, calls[2].op, 0);
    RunOfThree(s, Empty(0), calls);
    WrittenUnder(s, Empty(0), tagged, id);
    assert In(w1.db.tagSets, id, "k") && In(w2.db.tagSets, id, "k") && RefsOf(w2.db.refs, "k") == [];
    WrittenUnder(s, w2, plain, id);
    assert In(w3.db.tagSets, id, "k");
    assert "k" in Members(w3.db.tagSets, id);
  }

  lemma RunOfThree(s: Settings, w: World, calls: seq<Call>)
    requires |calls| == 3
    ensures Run(s, w, calls) == Step(s, Step(s, Step(s, w, calls[0].op, calls[0].now), calls[1].op, calls[1].now),
            calls[2].op, calls[2].now)
  {
    hide Step;
    var w1 := Step(s, w, calls[0].op, calls[0].now);
    var w2 := Step(s, w1, calls[1].op, calls[1].now);
    assert calls[1..][0] == calls[1] && calls[1..][1..][0] == calls[2] && calls[1..][1..][1..] == [];
    assert Run(s, w2, calls[1..][1..]) == Step(s, w2, calls[2].op, calls[2].now);
    assert Run(s, w1, calls[1..]) == Run(s, w2, calls[1..][1..]);
  }

  lemma WrittenUnder(s: Settings, w: World, entry: CacheEntry, id: TagId)
    ensures var w' := Step(s, w, WriteOp("k", entry, None, Any, true), 0);
            var ids := TagIds(s.namespace, TagsOf(entry));
            Holds(w'.db.store, "k", 0) && CarriedBy(w'.carried, "k") == IdSet(ids)
            && (In(w'.db.tagSets, id, "k") <==>
                id in ids
                || (In(w.db.tagSets, id, "k") && id !in RefsOf(w.db.refs, "k")))
  {
    hide SaddEach, SremEach, SaddRefs, In;
    RewriteMembers(w.db, "k", Envelope(entry), Never, TagIds(s.namespace, TagsOf(entry)), s.useIndex, id, "k");
  }

  // ----- The key index

  /** With a key index, every live entry is in it. */
  predicate Indexed(s: Settings, w: World) {
    s.useIndex ==> forall name :: name in w.db.store && Holds(w.db.store, name, w.now) ==> name in w.db.index
  }

  lemma {:induction false} WithoutAllIs(names: seq<string>, gone: seq<string>, n: string)
    ensures n in WithoutAll(names, gone) <==> n in names && n !in gone
  {
    if gone != [] {
      WithoutAllIs(names, gone[..|gone| - 1], n);
      assert gone == gone[..|gone| - 1] + [gone[|gone| - 1]];
    }
  }

  lemma IndexKept(s: Settings, w: World, op: Op, now: int)
    requires Indexed(s, w) && w.now <= now
    ensures Indexed(s, Step(s, w, op, now))
  {
    hide SaddEach, SremEach, SaddRefs, ScriptAccepts, StepwiseAccepts, Decode, WithoutAll, Matching;
    var w' := Step(s, w, op, now);
    if s.useIndex {
      forall name | name in w'.db.store && Holds(w'.db.store, name, now) ensures name in w'.db.index {
        match op
        case DeleteManyOp(names) => WithoutAllIs(w.db.index, names, name);
        case ClearOp(prefix) => WithoutAllIs(w.db.index, Matching(w.db.index, prefix), name);
        case _ =>
      }
    }
  }

  lemma {:induction false} RunIndexed(s: Settings, w: World, calls: seq<Call>)
    requires Inv(s, w) && Indexed(s, w) && Forward(calls, w.now)
    ensures Indexed(s, Run(s, w, calls))
    decreases |calls|
  {
    hide Inv, Indexed, Step;
    if calls != [] {
      EveryStep(s, w, calls[0].op, calls[0].now);
      IndexKept(s, w, calls[0].op, calls[0].now);
      RunIndexed(s, Step(s, w, calls[0].op, calls[0].now), calls[1..]);
    }
  }

  /** After any run, clearing by the key index leaves no live entry with the prefix and all others as they were. */
  lemma ClearingIsComplete(s: Settings, start: int, calls: seq<Call>, prefix: string, now: int, name: string)
    requires s.useIndex && Forward(calls, start) && Run(s, Empty(start), calls).now <= now
    ensures var w := Run(s, Empty(start), calls);
            var w' := Step(s, w, ClearOp(prefix), now);
            if StartsWith(name, prefix) then !Holds(w'.db.store, name, now)
            else Lookup(w'.db.store, name, now) == Lookup(w.db.store, name, now)
  {
    hide Run, WithoutAll, StartsWith;
    RunIndexed(s, Empty(start), calls);
    RunKeeps(s, Empty(start), calls);
    var w := Run(s, Empty(start), calls);
    if Holds(w.db.store, name, now) { assert Holds(w.db.store, name, w.now); }
  }
}
