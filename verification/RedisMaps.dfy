/**
 * The Redis adapter against a plain map: after every run a read gives the entry last written under the name, until
 * its own lifetime ends, it is deleted, its prefix is cleared, or a tag it is a member of is invalidated.
 */
module RedisMaps {
  import opened Wrappers
  import opened Lists
  import opened Strings
  import opened Entries
  import opened RedisModel
  import opened RedisProofs

  // ----- The plain map

  /** What a name holds, and until when. */
  datatype Slot = Item(entry: CacheEntry) | Token(text: string)
  datatype Cell = Cell(slot: Slot, until: Deadline)

  /** The cells, which names are members of which tags, which memberships are noted, and the names indexed. */
  datatype Plain = Plain(
    cells: map<string, Cell>, members: set<(string, TagId)>, noted: set<(string, TagId)>, indexed: set<string>)

  const NOTHING := Plain(map[], {}, {}, {})

  function Visible(m: map<string, Cell>, name: string, now: int): Option<Slot> {
    if name !in m then None
    else
      match m[name].until
      case Never => Some(m[name].slot)
      case At(t) => if now < t then Some(m[name].slot) else None
  }

  /** The entry a reader is to see. */
  function Shown(m: map<string, Cell>, name: string, now: int): Option<CacheEntry> {
    match Visible(m, name, now)
    case Some(Item(entry)) => Some(entry)
    case _ => None
  }

  /**
   * Whether a write goes through: always, or when the revision read is the one expected. Where absence is expected a
   * value that is no entry is in the way of the script unless it is empty.
   */
  predicate Accepts(visible: Option<Slot>, expected: Expected, scripted: bool) {
    match expected
    case Any => true
    case Exactly(Some(revision)) => visible.Some? && visible.value.Item? && visible.value.entry.revision == revision
    case Exactly(None) =>
      match visible
      case None => true
      case Some(Item(_)) => false
      case Some(Token(text)) => !scripted || text == ""
  }

  /** The end of the lifetime of a value: at least a millisecond away; a script takes no time for none. */
  function End(ttlMs: Option<int>, scripted: bool, now: int): Deadline {
    match ttlMs
    case None => Never
    case Some(ttl) => if ttl >= 1 then At(now + ttl) else if scripted then Never else At(now + 1)
  }

  function Paired(s: Settings, name: string, tags: seq<string>): set<(string, TagId)> {
    set t | t in tags :: (name, TagId(s.namespace, t))
  }

  function Tagged(entry: CacheEntry): seq<string> {
    match entry.tags
    case None => []
    case Some(tags) => tags
  }

  /** One operation on the plain map. */
  function Update(s: Settings, m: Plain, op: Op, now: int): Plain {
    match op
    case WriteOp(name, entry, ttlMs, expected, scripted) =>
      if !Accepts(Visible(m.cells, name, now), expected, scripted) then m
      else
        Plain(m.cells[name := Cell(Item(entry), End(ttlMs, scripted, now))],
              (set p | p in m.members && (p.0 != name || p !in m.noted)) + Paired(s, name, Tagged(entry)),
              (set p | p in m.noted && p.0 != name) + Paired(s, name, Tagged(entry)),
              if s.useIndex then m.indexed + {name} else m.indexed)
    case AddTagsOp(name, tags) =>
      m.(members := m.members + Paired(s, name, tags), noted := m.noted + Paired(s, name, tags))
    case DeleteOp(name) =>
      m.(cells := m.cells - {name}, noted := (set p | p in m.noted && p.0 != name),
         indexed := if s.useIndex then m.indexed - {name} else m.indexed)
    case DeleteManyOp(names) =>
      m.(cells := m.cells - (set n | n in names),
         indexed := if s.useIndex then m.indexed - (set n | n in names) else m.indexed)
    case InvalidateOp(tag) =>
      var id := TagId(s.namespace, tag);
      m.(cells := m.cells - (set p | p in m.members && p.1 == id :: p.0),
         members := set p | p in m.members && p.1 != id)
    case ClearOp(prefix) =>
      var gone := set n | n in m.indexed && prefix <= n;
      if s.useIndex then m.(cells := m.cells - gone, indexed := m.indexed - gone) else m
    case LockOp(name, token, lockMs) =>
      if Visible(m.cells, name, now).Some? then m
      else m.(cells := m.cells[name := Cell(Token(token), At(now + if lockMs < 1 then 1 else lockMs))])
    case UnlockOp(name, token) =>
      if Visible(m.cells, name, now) == Some(Token(token)) then m.(cells := m.cells - {name}) else m
    case RefsExpire(name) => m.(noted := set p | p in m.noted && p.0 != name)
  }

  function Updates(s: Settings, m: Plain, calls: seq<Call>): Plain
    decreases |calls|
  {
    if calls == [] then m else Updates(s, Update(s, m, calls[0].op, calls[0].now), calls[1..])
  }

  // ----- Both together

  predicate SameCell(stored: Stored, cell: Cell) {
    stored.expiresAt == cell.until &&
    match stored.blob
    case Envelope(entry) => cell.slot == Item(entry)
    case Foreign(text) => cell.slot == Token(text)
    case Broken(_) => false
  }

  predicate SameStore(store: map<string, Stored>, cells: map<string, Cell>) {
    store.Keys == cells.Keys && forall n :: n in store ==> SameCell(store[n], cells[n])
  }

  ghost predicate SameTags(db: Db, m: Plain) {
    (forall n, id :: In(db.tagSets, id, n) <==> (n, id) in m.members)
    && (forall n, id :: id in RefsOf(db.refs, n) <==> (n, id) in m.noted)
  }

  ghost predicate SameIndex(db: Db, m: Plain) {
    forall n :: n in db.index <==> n in m.indexed
  }

  ghost predicate Same(db: Db, m: Plain) {
    SameStore(db.store, m.cells) && SameTags(db, m) && SameIndex(db, m)
  }

  lemma SameLookup(store: map<string, Stored>, cells: map<string, Cell>, name: string, now: int)
    requires SameStore(store, cells)
    ensures Lookup(store, name, now).Some? <==> Visible(cells, name, now).Some?
    ensures Lookup(store, name, now).Some? ==>
              (Lookup(store, name, now).value.Envelope? || Lookup(store, name, now).value.Foreign?)
              && Visible(cells, name, now).value ==
                 match Lookup(store, name, now).value
                 case Envelope(entry) => Item(entry)
                 case Foreign(text) => Token(text)
                 case Broken(_) => Token("")
    ensures Decode(Lookup(store, name, now)) == Ok(Shown(cells, name, now))
  {
  }

  lemma SameVerdict(store: map<string, Stored>, cells: map<string, Cell>, name: string, expected: Expected, now: int)
    requires SameStore(store, cells)
    ensures ScriptAccepts(Lookup(store, name, now), expected) <==> Accepts(Visible(cells, name, now), expected, true)
    ensures Decode(Lookup(store, name, now)).Ok?
    ensures StepwiseAccepts(Decode(Lookup(store, name, now)).value, expected)
            <==> Accepts(Visible(cells, name, now), expected, false)
  {
    SameLookup(store, cells, name, now);
  }

  lemma SameEnd(ttlMs: Option<int>, now: int)
    ensures ScriptExpiry(ttlMs, now) == End(ttlMs, true, now) && StepwiseExpiry(ttlMs, now) == End(ttlMs, false, now)
  {
  }

  lemma PairedAre(s: Settings, name: string, tags: seq<string>, n: string, id: TagId)
    ensures (n, id) in Paired(s, name, tags) <==> n == name && id in TagIds(s.namespace, tags)
  {
    var ids := TagIds(s.namespace, tags);
    if n == name && id in ids {
      var i :| 0 <= i < |ids| && ids[i] == id;
      assert tags[i] in tags;
    }
    if (n, id) in Paired(s, name, tags) {
      var t :| t in tags && (n, id) == (name, TagId(s.namespace, t));
      var i :| 0 <= i < |tags| && tags[i] == t;
      assert ids[i] == id;
    }
  }

  // ----- Every operation

  /** The reply to a write, as the plain map gives it. */
  predicate Replies(s: Settings, db: Db, m: Plain, op: Op, now: int) {
    op.WriteOp? ==> Written(s, db, op, now).0 == Ok(Accepts(Visible(m.cells, op.name, now), op.expected, op.scripted))
  }

  lemma WriteReplies(s: Settings, db: Db, m: Plain, op: Op, now: int)
    requires Same(db, m) && op.WriteOp?
    ensures Replies(s, db, m, op, now)
    ensures Accepts(Visible(m.cells, op.name, now), op.expected, op.scripted) ==>
              Written(s, db, op, now).1 ==
              Rewrite(db, op.name, Envelope(op.entry), End(op.ttlMs, op.scripted, now),
                      TagIds(s.namespace, TagsOf(op.entry)), s.useIndex)
    ensures !Accepts(Visible(m.cells, op.name, now), op.expected, op.scripted) ==> Written(s, db, op, now).1 == db
  {
    hide Rewrite, Visible, Accepts, ScriptAccepts, StepwiseAccepts, End, ScriptExpiry, StepwiseExpiry, Decode, Lookup;
    SameVerdict(db.store, m.cells, op.name, op.expected, now);
    SameEnd(op.ttlMs, now);
  }

  lemma WriteSame(s: Settings, w: World, m: Plain, op: Op, now: int)
    requires Same(w.db, m) && op.WriteOp?
    ensures Same(Step(s, w, op, now).db, Update(s, m, op, now))
  {
    hide Rewrite, Visible, Accepts, End, Written, In, RefsOf, Paired;
    WriteReplies(s, w.db, m, op, now);
    if Accepts(Visible(m.cells, op.name, now), op.expected, op.scripted) {
      var ids, end := TagIds(s.namespace, TagsOf(op.entry)), End(op.ttlMs, op.scripted, now);
      var db, after := Rewrite(w.db, op.name, Envelope(op.entry), end, ids, s.useIndex), Update(s, m, op, now);
      RewriteStore(w.db, op.name, Envelope(op.entry), end, ids, s.useIndex);
      RewriteIndex(w.db, op.name, Envelope(op.entry), end, ids, s.useIndex);
      forall n, id ensures In(db.tagSets, id, n) <==> (n, id) in after.members
        ensures id in RefsOf(db.refs, n) <==> (n, id) in after.noted
      {
        RewriteMembers(w.db, op.name, Envelope(op.entry), end, ids, s.useIndex, id, n);
        RewriteRefs(w.db, op.name, Envelope(op.entry), end, ids, s.useIndex, id, n);
        PairedAre(s, op.name, TagsOf(op.entry), n, id);
      }
      assert SameIndex(db, after);
    }
  }

  lemma RewriteIndex(db: Db, name: string, blob: Blob, expiry: Deadline, ids: seq<TagId>, useIndex: bool)
    ensures Rewrite(db, name, blob, expiry, ids, useIndex).index == if useIndex then Added(db.index, name) else db.index
  {
  }

  lemma AddTagsSame(s: Settings, w: World, m: Plain, op: Op, now: int)
    requires Same(w.db, m) && op.AddTagsOp?
    ensures Same(Step(s, w, op, now).db, Update(s, m, op, now))
  {
    hide In, RefsOf, Paired, SaddEach, SaddRefs;
    var ids := TagIds(s.namespace, op.tags);
    var db, after := AddTags(w.db, op.name, ids), Update(s, m, op, now);
    forall n, id ensures In(db.tagSets, id, n) <==> (n, id) in after.members
      ensures id in RefsOf(db.refs, n) <==> (n, id) in after.noted
    {
      Joined(w.db.tagSets, ids, op.name, id, n);
      Noted(w.db.refs, op.name, ids, n, id);
      PairedAre(s, op.name, op.tags, n, id);
    }
  }

  lemma ForgetSame(s: Settings, w: World, m: Plain, op: Op, now: int)
    requires Same(w.db, m) && (op.DeleteOp? || op.RefsExpire?)
    ensures Same(Step(s, w, op, now).db, Update(s, m, op, now))
  {
    hide In;
    var db, after := Step(s, w, op, now).db, Update(s, m, op, now);
    forall n, id ensures id in RefsOf(db.refs, n) <==> (n, id) in after.noted {
      assert id in RefsOf(w.db.refs, n) <==> (n, id) in m.noted;
    }
  }

  lemma DeleteManySame(s: Settings, w: World, m: Plain, op: Op, now: int)
    requires Same(w.db, m) && op.DeleteManyOp?
    ensures Same(Step(s, w, op, now).db, Update(s, m, op, now))
  {
    hide In, RefsOf, WithoutAll;
    forall n ensures n in WithoutAll(w.db.index, op.names) <==> n in w.db.index && n !in op.names {
      WithoutAllIs(w.db.index, op.names, n);
    }
    var db, after := Step(s, w, op, now).db, Update(s, m, op, now);
    assert SameTags(db, after) && SameStore(db.store, after.cells);
  }

  lemma InvalidateSame(s: Settings, w: World, m: Plain, op: Op, now: int)
    requires Same(w.db, m) && op.InvalidateOp?
    ensures Same(Step(s, w, op, now).db, Update(s, m, op, now))
  {
    var id := TagId(s.namespace, op.tag);
    var db, after := Step(s, w, op, now).db, Update(s, m, op, now);
    forall n ensures n in Members(w.db.tagSets, id) <==> n in (set p | p in m.members && p.1 == id :: p.0) {
      assert In(w.db.tagSets, id, n) <==> (n, id) in m.members;
      if (n, id) in m.members { assert (n, id).0 == n; }
    }
    assert db.store.Keys == after.cells.Keys;
    assert SameStore(db.store, after.cells);
    assert SameTags(db, after);
  }

  lemma ClearSame(s: Settings, w: World, m: Plain, op: Op, now: int)
    requires Same(w.db, m) && op.ClearOp?
    ensures Same(Step(s, w, op, now).db, Update(s, m, op, now))
  {
    hide In, RefsOf, WithoutAll, Matching;
    if s.useIndex {
      var names := Matching(w.db.index, op.prefix);
      forall n ensures StartsWith(n, op.prefix) <==> op.prefix <= n { PrefixIs(n, op.prefix); }
      forall n ensures n in WithoutAll(w.db.index, names) <==> n in w.db.index && n !in names {
        WithoutAllIs(w.db.index, names, n);
      }
    }
  }

  lemma PrefixIs(s: string, prefix: string)
    ensures StartsWith(s, prefix) <==> prefix <= s
  {
  }

  lemma LockSame(s: Settings, w: World, m: Plain, op: Op, now: int)
    requires Same(w.db, m) && (op.LockOp? || op.UnlockOp?)
    ensures Same(Step(s, w, op, now).db, Update(s, m, op, now))
  {
    hide In, RefsOf, Lookup, Visible, SameTags, SameIndex;
    SameLookup(w.db.store, m.cells, op.name, now);
    LeavesTags(w.db, Step(s, w, op, now).db, m, Update(s, m, op, now));
  }

  lemma LeavesTags(db: Db, db': Db, m: Plain, m': Plain)
    requires Same(db, m) && db'.tagSets == db.tagSets && db'.refs == db.refs && db'.index == db.index
    requires m'.members == m.members && m'.noted == m.noted && m'.indexed == m.indexed
    ensures SameTags(db', m') && SameIndex(db', m')
  {
  }

  lemma EveryStepSame(s: Settings, w: World, m: Plain, op: Op, now: int)
    requires Same(w.db, m)
    ensures Same(Step(s, w, op, now).db, Update(s, m, op, now)) && Replies(s, w.db, m, op, now)
  {
    hide Same, Step, Update, Written;
    match op
    case WriteOp(_, _, _, _, _) => WriteReplies(s, w.db, m, op, now); WriteSame(s, w, m, op, now);
    case AddTagsOp(_, _) => AddTagsSame(s, w, m, op, now);
    case InvalidateOp(_) => InvalidateSame(s, w, m, op, now);
    case ClearOp(_) => ClearSame(s, w, m, op, now);
    case LockOp(_, _, _) => LockSame(s, w, m, op, now);
    case UnlockOp(_, _) => LockSame(s, w, m, op, now);
    case DeleteManyOp(_) => DeleteManySame(s, w, m, op, now);
    case _ => ForgetSame(s, w, m, op, now);
  }

  lemma {:induction false} RunSame(s: Settings, w: World, m: Plain, calls: seq<Call>)
    requires Same(w.db, m)
    ensures Same(Run(s, w, calls).db, Updates(s, m, calls))
    decreases |calls|
  {
    hide Same, Step, Update, Replies;
    if calls != [] {
      EveryStepSame(s, w, m, calls[0].op, calls[0].now);
      RunSame(s, Step(s, w, calls[0].op, calls[0].now), Update(s, m, calls[0].op, calls[0].now), calls[1..]);
    }
  }

  lemma EmptySame(start: int)
    ensures Same(Empty(start).db, NOTHING)
  {
  }

  /**
   * After every run a read gives what the plain map shows under the name, and the next write goes through exactly
   * when it does on the plain map.
   */
  lemma RedisIsAMap(s: Settings, start: int, calls: seq<Call>, name: string, now: int, op: Op)
    ensures var db, m := Run(s, Empty(start), calls).db, Updates(s, NOTHING, calls);
            Decode(Lookup(db.store, name, now)) == Ok(Shown(m.cells, name, now)) && Replies(s, db, m, op, now)
  {
    hide Run, Updates, Step, Update, Decode, Lookup, Shown, Replies;
    EmptySame(start);
    RunSame(s, Empty(start), NOTHING, calls);
    SameLookup(Run(s, Empty(start), calls).db.store, Updates(s, NOTHING, calls).cells, name, now);
    EveryStepSame(s, Run(s, Empty(start), calls), Updates(s, NOTHING, calls), op, now);
  }

  /** A member of the plain map's tags that has a live entry carries the tag, or its membership has gone astray. */
  lemma MembersCarry(s: Settings, start: int, calls: seq<Call>, name: string, tag: string, now: int)
    requires Forward(calls, start) && Run(s, Empty(start), calls).now <= now
    requires Shown(Updates(s, NOTHING, calls).cells, name, now).Some?
    ensures var id := TagId(s.namespace, tag);
            (name, id) in Updates(s, NOTHING, calls).members <==>
            id in CarriedBy(Run(s, Empty(start), calls).carried, name)
            || Astray(s, Empty(start), calls, name, id, false)
  {
    hide Run, Updates, CarriedBy, Astray, Lookup, Shown, In, RefsOf;
    var w, m, id := Run(s, Empty(start), calls), Updates(s, NOTHING, calls), TagId(s.namespace, tag);
    EmptySame(start);
    RunSame(s, Empty(start), NOTHING, calls);
    ShownIsHeld(w.db.store, m.cells, name, now);
    InvalidationIsExact(s, start, calls, tag, now, name);
    assert In(w.db.tagSets, id, name) <==> (name, id) in m.members;
    GoneIffMember(w.db, id, name, now);
  }

  lemma ShownIsHeld(store: map<string, Stored>, cells: map<string, Cell>, name: string, now: int)
    requires SameStore(store, cells)
    ensures Shown(cells, name, now).Some? <==> Holds(store, name, now)
  {
    SameLookup(store, cells, name, now);
  }

  lemma GoneIffMember(db: Db, id: TagId, name: string, now: int)
    requires Holds(db.store, name, now)
    ensures Holds(InvalidateTag(db, id).store, name, now) <==> !In(db.tagSets, id, name)
  {
  }
}
