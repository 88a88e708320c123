/**
 * The iteration order of the memory storage is the order of last use: in every run, keys stand in the order of
 * their last write or, when reads count as use, their last successful read.
 */
module MemoryOrder {
  import opened Wrappers
  import opened Lists
  import opened Entries
  import opened MemoryShelf
  import opened MemoryInvariants
  import opened MemoryRuns

  /** The keys are listed by when they were used last. */
  predicate ByUse(order: seq<string>, uses: map<string, nat>) {
    (forall k :: k in order ==> k in uses) && forall i, j :: 0 <= i < j < |order| ==> uses[order[i]] < uses[order[j]]
  }

  lemma HeadFirst(order: seq<string>, uses: map<string, nat>)
    requires order != [] && ByUse(order, uses)
    ensures ByUse(order[1..], uses) && order[0] in uses && forall k :: k in order[1..] ==> uses[order[0]] < uses[k]
  {
    var rest := order[1..];
    forall k | k in rest ensures uses[order[0]] < uses[k] {
      var i :| 0 <= i < |rest| && rest[i] == k;
      assert order[i + 1] == k;
    }
  }

  lemma PutFirst(x: string, rest: seq<string>, uses: map<string, nat>)
    requires ByUse(rest, uses) && x in uses && forall k :: k in rest ==> uses[x] < uses[k]
    ensures ByUse([x] + rest, uses)
  {
  }

  lemma {:induction false} WithoutByUse(order: seq<string>, uses: map<string, nat>, x: string)
    requires ByUse(order, uses)
    ensures ByUse(Without(order, x), uses)
  {
    if order != [] {
      hide ByUse;
      var rest := Without(order[1..], x);
      HeadFirst(order, uses);
      WithoutByUse(order[1..], uses, x);
      if order[0] == x {
        assert [] + rest == rest;
      } else {
        PutFirst(order[0], rest, uses);
      }
    }
  }

  lemma RemoveByUse(s: Shelf, uses: map<string, nat>, key: string)
    requires ByUse(s.order, uses)
    ensures ByUse(Remove(s, key).order, uses)
  {
    hide Unregister, ByUse;
    WithoutByUse(s.order, uses, key);
  }

  lemma {:induction false} RemoveAllByUse(s: Shelf, uses: map<string, nat>, keys: seq<string>)
    requires ByUse(s.order, uses)
    ensures ByUse(RemoveAll(s, keys).order, uses)
  {
    hide ByUse, Remove;
    if keys != [] {
      RemoveAllByUse(s, uses, keys[..|keys| - 1]);
      RemoveByUse(RemoveAll(s, keys[..|keys| - 1]), uses, keys[|keys| - 1]);
    }
  }

  lemma {:induction false} EnforceByUse(c: Config, s: Shelf, uses: map<string, nat>)
    requires Listed(s) && ByUse(s.order, uses)
    ensures ByUse(Enforce(c, s).order, uses)
    decreases |s.order|
  {
    hide ByUse, Remove, Fits;
    if !Fits(c, s) && s.order != [] {
      RemoveListed(s, s.order[0]);
      FirstRemoved(s);
      RemoveByUse(s, uses, s.order[0]);
      EnforceByUse(c, Remove(s, s.order[0]), uses);
    }
  }

  /** Moving or adding a key at the end, used at a moment later than all others. */
  lemma UsedNow(order: seq<string>, uses: map<string, nat>, key: string, moment: nat)
    requires ByUse(order, uses) && key !in order && forall k :: k in uses ==> uses[k] < moment
    ensures ByUse(order + [key], uses[key := moment])
  {
  }

  /** A step uses a key when it writes it, or reads it with success while reads count. */
  function KeyUsed(c: Config, st: State, op: Op, now: int): Option<string> {
    if Stores(c, st, op, now) then Some(op.key)
    else if op.GetOp? && c.updateAgeOnGet && Get(c, st, op.key, now).0.Some? then Some(op.key)
    else None
  }

  function Used(c: Config, st: State, uses: map<string, nat>, op: Op, now: int, moment: nat): map<string, nat> {
    var used := KeyUsed(c, st, op, now);
    if used.Some? then uses[used.value := moment] else uses
  }

  lemma SweepByUse(c: Config, st: State, uses: map<string, nat>, now: int)
    requires ByUse(st.shelf.order, uses)
    ensures ByUse(MaybeSweep(c, st, now).shelf.order, uses)
  {
    hide ByUse, RemoveAll;
    RemoveAllByUse(st.shelf, uses, ExpiredKeys(st.shelf, st.shelf.order, now));
  }

  lemma ReadByUse(s: Shelf, uses: map<string, nat>, key: string, now: int)
    requires ByUse(s.order, uses)
    ensures ByUse(Read(s, key, now).1.order, uses)
  {
    hide ByUse, Remove;
    RemoveByUse(s, uses, key);
  }

  lemma GetByUse(c: Config, st: State, uses: map<string, nat>, op: Op, now: int, moment: nat)
    requires Listed(st.shelf) && ByUse(st.shelf.order, uses) && (op.GetOp? || op.HasOp?)
             && forall k :: k in uses ==> uses[k] < moment
    ensures ByUse(Perform(c, st, op, now).1.shelf.order, Used(c, st, uses, op, now, moment))
  {
    hide ByUse, MaybeSweep, Read;
    var s := if op.GetOp? then MaybeSweep(c, st, now).shelf else st.shelf;
    SweepByUse(c, st, uses, now);
    ReadByUse(s, uses, op.key, now);
    var rest := Read(s, op.key, now).1;
    WithoutByUse(rest.order, uses, op.key);
    UsedNow(Without(rest.order, op.key), uses, op.key, moment);
  }

  lemma WriteByUse(c: Config, s: Shelf, uses: map<string, nat>, key: string, entry: CacheEntry, moment: nat)
    requires Listed(s) && ByUse(s.order, uses) && forall k :: k in uses ==> uses[k] < moment
    ensures ByUse(Write(c, s, key, entry).order, uses[key := moment])
  {
    hide ByUse, Enforce, Register, Unregister;
    RemoveByUse(s, uses, key);
    NotListed(s, key);
    UsedNow(Remove(s, key).order, uses, key, moment);
    PlaceListed(c, s, key, entry);
    EnforceByUse(c, Place(c, s, key, entry), uses[key := moment]);
  }

  lemma StoreByUse(c: Config, st: State, uses: map<string, nat>, op: Op, now: int, moment: nat)
    requires Listed(st.shelf) && ByUse(st.shelf.order, uses) && (op.SetOp? || op.CasOp?)
             && forall k :: k in uses ==> uses[k] < moment
    ensures ByUse(Perform(c, st, op, now).1.shelf.order, Used(c, st, uses, op, now, moment))
  {
    hide ByUse, Write, Perform, Stores, MaybeSweep, Read;
    SweepByUse(c, st, uses, now);
    ReadByUse(MaybeSweep(c, st, now).shelf, uses, op.key, now);
    WriteUnfolds(c, st, op, now);
    WriteByUse(c, Base(c, st, op, now), uses, op.key, op.entry, moment);
  }

  lemma OtherByUse(c: Config, st: State, uses: map<string, nat>, op: Op, now: int, moment: nat)
    requires Listed(st.shelf) && ByUse(st.shelf.order, uses) && !op.SetOp? && !op.CasOp? && !op.GetOp? && !op.HasOp?
    ensures ByUse(Perform(c, st, op, now).1.shelf.order, Used(c, st, uses, op, now, moment))
  {
    hide ByUse, RemoveAll;
    var s := st.shelf;
    match op
    case DeleteOp(keys) => RemoveAllByUse(s, uses, keys);
    case ClearOp(prefix) =>
      RemoveAllByUse(s, uses, s.order);
      if prefix.Some? { RemoveAllByUse(s, uses, PrefixedKeys(s.order, prefix.value)); }
    case InvalidateOp(tag) => if tag in s.index { RemoveAllByUse(s, uses, s.index[tag]); }
    case _ =>
  }

  /** Every operation keeps the order of last use. */
  lemma StepByUse(c: Config, st: State, uses: map<string, nat>, op: Op, now: int, moment: nat)
    requires Listed(st.shelf) && ByUse(st.shelf.order, uses) && forall k :: k in uses ==> uses[k] < moment
    ensures ByUse(Perform(c, st, op, now).1.shelf.order, Used(c, st, uses, op, now, moment))
    ensures forall k :: k in Used(c, st, uses, op, now, moment) ==> Used(c, st, uses, op, now, moment)[k] < moment + 1
  {
    hide ByUse, Perform, KeyUsed, Listed;
    match op
    case GetOp(_) => GetByUse(c, st, uses, op, now, moment);
    case HasOp(_) => GetByUse(c, st, uses, op, now, moment);
    case SetOp(_, _, _) => StoreByUse(c, st, uses, op, now, moment);
    case CasOp(_, _, _) => StoreByUse(c, st, uses, op, now, moment);
    case _ => OtherByUse(c, st, uses, op, now, moment);
  }

  /** When each key was used last in a run of which the first step happens at a moment. */
  function UsesOf(c: Config, w: World, uses: map<string, nat>, calls: seq<Call>, moment: nat): map<string, nat>
    requires Inv(c, w) && Forward(calls, w.now)
    decreases |calls|
  {
    if calls == [] then uses
    else
      EveryStep(c, w, calls[0].op, calls[0].now);
      StepTime(c, w, calls[0].op, calls[0].now);
      UsesOf(c, Step(c, w, calls[0].op, calls[0].now), Used(c, w.st, uses, calls[0].op, calls[0].now, moment),
          calls[1..], moment + 1)
  }

  lemma {:induction false} RunByUse(c: Config, w: World, uses: map<string, nat>, calls: seq<Call>, moment: nat,
      w': World)
    requires Inv(c, w) && Forward(calls, w.now) && Reaches(c, w, calls, w')
    requires ByUse(w.st.shelf.order, uses) && forall k :: k in uses ==> uses[k] < moment
    ensures ByUse(w'.st.shelf.order, UsesOf(c, w, uses, calls, moment))
    decreases |calls|
  {
    hide Inv, ByUse, Step, Used, Perform;
    if calls != [] {
      EveryStep(c, w, calls[0].op, calls[0].now);
      StepTime(c, w, calls[0].op, calls[0].now);
      StepByUse(c, w.st, uses, calls[0].op, calls[0].now, moment);
      StepState(c, w, calls[0].op, calls[0].now);
      RunByUse(c, Step(c, w, calls[0].op, calls[0].now), Used(c, w.st, uses, calls[0].op, calls[0].now, moment),
          calls[1..], moment + 1, w');
    }
  }

  lemma StepState(c: Config, w: World, op: Op, now: int)
    requires Listed(w.st.shelf)
    ensures Step(c, w, op, now).st == Perform(c, w.st, op, now).1
  {
    hide Perform, Apply, Stores, Base, Place, Overflows;
  }

  /**
   * After any run from the empty storage the keys stand in the order of their last use, so that eviction, which
   * takes them from the front, takes the least recently used.
   */
  lemma OrderIsLastUse(c: Config, start: int, calls: seq<Call>, w: World)
    requires Forward(calls, start) && Reaches(c, Start(start), calls, w)
    ensures Inv(c, Start(start)) && ByUse(w.st.shelf.order, UsesOf(c, Start(start), map[], calls, 0))
  {
    hide Step;
    StartOk(c, start);
    RunByUse(c, Start(start), map[], calls, 0, w);
  }
}
