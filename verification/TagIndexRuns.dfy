/**
 * Any number of processes adding keys to one tag index and invalidating it, in every interleaving of their
 * storage calls (src/tag-index.ts), while entries come and go and the index itself may expire.
 */
module TagIndexRuns {
  import opened Wrappers
  import opened Lists
  import opened TagIndexes

  /** How many keys a list holds, and whether the storage has a compare-and-set. */
  datatype Config = Config(max: nat, cas: bool)

  /**
   * Where a process stands. `began` and `seen` count the changes of the index before the call and before the
   * read; `deleted` says for each key of the list read how many entries had been stored when it was deleted.
   */
  datatype Phase =
    | Idle
    | Reading(attempt: nat)
    | Writing(attempt: nat, existing: Option<Slot>, seen: nat)
    | Done(stored: bool)
    | Clearing(listed: seq<string>, seen: nat, deleted: seq<nat>)

  datatype Proc = Proc(key: string, phase: Phase, began: nat)

  /** A change of the index: who made it, if it was a process, and what it left. */
  datatype Change = Change(author: Option<nat>, slot: Option<Slot>)

  /**
   * The index and the entries stored, each with its number in the order of storing; all changes so far; and
   * since the index was last removed: the keys reported as stored, whether a list was cut, and whether a list
   * was written over keys it did not hold.
   */
  datatype World = World(
    slot: Option<Slot>,
    entries: map<string, nat>,
    stores: nat,
    procs: seq<Proc>,
    changes: seq<Change>,
    reported: set<string>,
    cut: bool,
    clobbered: bool)

  datatype Action =
    | Store(key: string) | Evict(key: string) | Expire
    | Begin(p: nat, key: string) | Read(p: nat) | Write(p: nat)
    | ListKeys(p: nat) | DeleteChunk(p: nat) | DropIndex(p: nat)

  predicate Free(w: World, p: nat) {
    p < |w.procs| && (w.procs[p].phase.Idle? || w.procs[p].phase.Done?)
  }

  predicate Possible(w: World, a: Action) {
    match a
    case Store(_) => true
    case Evict(_) => true
    case Expire => true
    case Begin(p, _) => Free(w, p)
    case Read(p) => p < |w.procs| && w.procs[p].phase.Reading?
    case Write(p) => p < |w.procs| && w.procs[p].phase.Writing?
    case ListKeys(p) => Free(w, p)
    case DeleteChunk(p) =>
      p < |w.procs| && w.procs[p].phase.Clearing?
      && |w.procs[p].phase.deleted| < |w.procs[p].phase.listed|
    case DropIndex(p) =>
      p < |w.procs| && w.procs[p].phase.Clearing?
      && |w.procs[p].phase.deleted| >= |w.procs[p].phase.listed|
  }

  function Move(w: World, p: nat, phase: Phase): World
    requires p < |w.procs|
  {
    w.(procs := w.procs[p := w.procs[p].(phase := phase)])
  }

  /** The index is gone, and with it everything that was registered. */
  function Removed(w: World, author: Option<nat>): World {
    w.(slot := None, changes := w.changes + [Change(author, None)], reported := {}, cut := false, clobbered := false)
  }

  /** The write is accepted; without a compare-and-set it always is. */
  predicate Wins(c: Config, w: World, p: nat)
    requires Possible(w, Write(p))
  {
    c.cas ==> RevisionOf(w.slot) == RevisionOf(w.procs[p].phase.existing)
  }

  /** The index was removed after the process read it. */
  predicate Stale(w: World, p: nat)
    requires Possible(w, Write(p))
  {
    exists i :: w.procs[p].phase.seen <= i < |w.changes| && w.changes[i].slot.None?
  }

  /** The list built by the process lacks a key that is listed. */
  predicate Lacks(w: World, p: nat)
    requires Possible(w, Write(p))
  {
    exists k :: k in KeysOf(w.slot) && k !in KeysOf(w.procs[p].phase.existing) && k != w.procs[p].key
  }

  /** With a compare-and-set only a list read before a removal can be written over keys it lacks. */
  predicate Clobbers(c: Config, w: World, p: nat)
    requires Possible(w, Write(p))
  {
    Wins(c, w, p) && Lacks(w, p) && if c.cas then Stale(w, p) else w.procs[p].phase.seen < |w.changes|
  }

  predicate Cuts(c: Config, w: World, p: nat)
    requires Possible(w, Write(p))
  {
    Wins(c, w, p) && |KeysOf(w.procs[p].phase.existing)| + 1 > c.max
  }

  function DoRead(w: World, p: nat): World
    requires Possible(w, Read(p))
  {
    var me := w.procs[p];
    if me.key in KeysOf(w.slot) then Move(w, p, Done(true)).(reported := w.reported + {me.key})
    else Move(w, p, Writing(me.phase.attempt, w.slot, |w.changes|))
  }

  function DoWrite(c: Config, w: World, p: nat): World
    requires Possible(w, Write(p))
  {
    var me := w.procs[p];
    var existing := me.phase.existing;
    var next := Some(Slot(Extended(KeysOf(existing), me.key, c.max), NextRevision(existing)));
    if Wins(c, w, p) then
      Move(w, p, Done(true)).(
        slot := next, changes := w.changes + [Change(Some(p), next)], reported := w.reported + {me.key},
        cut := w.cut || Cuts(c, w, p), clobbered := w.clobbered || Clobbers(c, w, p))
    else Move(w, p, if me.phase.attempt + 1 < CAS_RETRIES then Reading(me.phase.attempt + 1) else Done(false))
  }

  function DoDeleteChunk(w: World, p: nat): World
    requires Possible(w, DeleteChunk(p))
  {
    var Clearing(listed, seen, deleted) := w.procs[p].phase;
    var end := if |deleted| + DELETE_CHUNK < |listed| then |deleted| + DELETE_CHUNK else |listed|;
    var chunk := listed[|deleted|..end];
    Move(w, p, Clearing(listed, seen, deleted + seq(|chunk|, _ => w.stores)))
      .(entries := map k | k in w.entries && k !in chunk :: w.entries[k])
  }

  function Step(c: Config, w: World, a: Action): World
    requires Possible(w, a)
  {
    match a
    case Store(key) => w.(entries := w.entries[key := w.stores], stores := w.stores + 1)
    case Evict(key) => w.(entries := w.entries - {key})
    case Expire => Removed(w, None)
    case Begin(p, key) => w.(procs := w.procs[p := Proc(key, Reading(0), |w.changes|)])
    case Read(p) => DoRead(w, p)
    case Write(p) => DoWrite(c, w, p)
    case ListKeys(p) => Move(w, p, Clearing(KeysOf(w.slot), |w.changes|, []))
    case DeleteChunk(p) => DoDeleteChunk(w, p)
    case DropIndex(p) => Removed(Move(w, p, Idle), Some(p))
  }

  // ----- The invariant

  /** The index after a number of changes. */
  function SlotAt(initial: Option<Slot>, changes: seq<Change>, n: nat): Option<Slot>
    requires n <= |changes|
  {
    if n == 0 then initial else changes[n - 1].slot
  }

  predicate NotBy(changes: seq<Change>, p: nat, from: nat) {
    forall i :: from <= i < |changes| ==> changes[i].author != Some(p)
  }

  /** Lists hold no key twice, and with a compare-and-set each commit counts the revision up by one. */
  predicate History(c: Config, initial: Option<Slot>, changes: seq<Change>) {
    NoDup(KeysOf(initial))
    && (forall i :: 0 <= i < |changes| ==> NoDup(KeysOf(changes[i].slot)))
    && (c.cas ==> forall i :: 0 <= i < |changes| && changes[i].slot.Some? ==>
                    changes[i].slot.value.revision == Commits(SlotAt(initial, changes, i)) + 1)
  }

  /** A process changes nothing before it is done, and loses each attempt to a change by somebody else. */
  predicate ProcOk(initial: Option<Slot>, w: World, p: nat)
    requires p < |w.procs|
  {
    var me := w.procs[p];
    match me.phase
    case Idle => true
    case Reading(attempt) => me.began + attempt <= |w.changes| && attempt < CAS_RETRIES && NotBy(w.changes, p, me.began)
    case Writing(attempt, existing, seen) =>
      me.began + attempt <= seen <= |w.changes| && attempt < CAS_RETRIES && NotBy(w.changes, p, me.began)
      && existing == SlotAt(initial, w.changes, seen) && me.key !in KeysOf(existing)
    case Done(stored) => !stored ==> me.began + CAS_RETRIES <= |w.changes| && NotBy(w.changes, p, me.began)
    case Clearing(listed, seen, _) => seen <= |w.changes| && listed == KeysOf(SlotAt(initial, w.changes, seen))
  }

  /** What has been deleted is absent or was stored afterwards. */
  predicate DeletionOk(w: World, p: nat)
    requires p < |w.procs|
  {
    w.procs[p].phase.Clearing? ==>
      var Clearing(listed, _, deleted) := w.procs[p].phase;
      |deleted| <= |listed|
      && forall i :: 0 <= i < |deleted| ==>
           deleted[i] <= w.stores
           && (listed[i] in w.entries ==> w.entries[listed[i]] >= deleted[i])
  }

  predicate Inv(c: Config, initial: Option<Slot>, w: World) {
    History(c, initial, w.changes) && w.slot == SlotAt(initial, w.changes, |w.changes|)
    && (forall p :: 0 <= p < |w.procs| ==> ProcOk(initial, w, p))
    && (forall p :: 0 <= p < |w.procs| ==> DeletionOk(w, p))
    && (!w.cut && !w.clobbered ==> forall k :: k in w.reported ==> k in KeysOf(w.slot))
  }

  /** While the index is not removed the revision counts the commits. */
  lemma {:induction false} RevisionGrows(c: Config, initial: Option<Slot>, changes: seq<Change>, n: nat, m: nat)
    requires History(c, initial, changes) && c.cas && n <= m <= |changes|
    requires forall i :: n <= i < m ==> changes[i].slot.Some?
    ensures Commits(SlotAt(initial, changes, m)) == Commits(SlotAt(initial, changes, n)) + m - n
  {
    if n < m { RevisionGrows(c, initial, changes, n, m - 1); }
  }

  /** A write that wins although the index has changed was built from a list read before a removal. */
  lemma OutdatedWinIsStale(c: Config, initial: Option<Slot>, w: World, p: nat)
    requires Inv(c, initial, w) && Possible(w, Write(p)) && Wins(c, w, p) && c.cas && !Stale(w, p)
    ensures w.procs[p].phase.seen == |w.changes| && w.procs[p].phase.existing == w.slot
  {
    assert ProcOk(initial, w, p);
    var seen := w.procs[p].phase.seen;
    forall i | seen <= i < |w.changes| ensures w.changes[i].slot.Some? {}
    RevisionGrows(c, initial, w.changes, seen, |w.changes|);
  }

  lemma HistoryGrows(c: Config, initial: Option<Slot>, changes: seq<Change>, more: Change)
    requires History(c, initial, changes) && NoDup(KeysOf(more.slot))
    requires c.cas && more.slot.Some? ==> more.slot.value.revision == Commits(SlotAt(initial, changes, |changes|)) + 1
    ensures History(c, initial, changes + [more])
  {
    hide NoDup;
    var all := changes + [more];
    forall i | 0 <= i <= |changes| ensures SlotAt(initial, all, i) == SlotAt(initial, changes, i) {}
  }

  /** One more change, made by nobody or by a process that had none under way to protect. */
  lemma OthersOk(initial: Option<Slot>, w: World, w': World, more: Change, p: nat)
    requires p < |w.procs| && |w'.procs| == |w.procs| && w'.changes == w.changes + [more] && w'.procs[p] == w.procs[p]
    requires ProcOk(initial, w, p) && more.author != Some(p)
    ensures ProcOk(initial, w', p)
  {
  }

  lemma EntryStep(c: Config, initial: Option<Slot>, w: World, a: Action)
    requires Inv(c, initial, w) && Possible(w, a) && (a.Store? || a.Evict?)
    ensures Inv(c, initial, Step(c, w, a))
  {
    hide NoDup, History;
    var w' := Step(c, w, a);
    forall p | 0 <= p < |w'.procs| ensures ProcOk(initial, w', p) && DeletionOk(w', p) {
      assert ProcOk(initial, w, p) && DeletionOk(w, p);
    }
  }

  lemma RemovalStep(c: Config, initial: Option<Slot>, w: World, a: Action)
    requires Inv(c, initial, w) && Possible(w, a) && (a.Expire? || a.DropIndex?)
    ensures Inv(c, initial, Step(c, w, a))
  {
    hide NoDup, History;
    var w' := Step(c, w, a);
    var more := Change(if a.Expire? then None else Some(a.p), None);
    NothingTwice();
    HistoryGrows(c, initial, w.changes, more);
    forall p | 0 <= p < |w'.procs| ensures ProcOk(initial, w', p) && DeletionOk(w', p) {
      assert ProcOk(initial, w, p) && DeletionOk(w, p);
      if a.Expire? || p != a.p { OthersOk(initial, w, w', more, p); }
    }
  }

  lemma NothingTwice()
    ensures NoDup(KeysOf(None))
  {
  }

  lemma ReadStep(c: Config, initial: Option<Slot>, w: World, a: Action)
    requires Inv(c, initial, w) && Possible(w, a) && a.Read?
    ensures Inv(c, initial, Step(c, w, a))
  {
    hide NoDup, History;
    var w' := Step(c, w, a);
    assert ProcOk(initial, w, a.p);
    forall p | 0 <= p < |w'.procs| ensures ProcOk(initial, w', p) && DeletionOk(w', p) {
      assert ProcOk(initial, w, p) && DeletionOk(w, p);
    }
  }

  lemma FirstStep(c: Config, initial: Option<Slot>, w: World, a: Action)
    requires Inv(c, initial, w) && Possible(w, a) && (a.Begin? || a.ListKeys?)
    ensures Inv(c, initial, Step(c, w, a))
  {
    hide NoDup, History, SlotAt;
    var w' := Step(c, w, a);
    forall p | 0 <= p < |w'.procs| ensures ProcOk(initial, w', p) && DeletionOk(w', p) {
      assert ProcOk(initial, w, p) && DeletionOk(w, p);
    }
  }

  lemma DeleteStep(c: Config, initial: Option<Slot>, w: World, a: Action)
    requires Inv(c, initial, w) && Possible(w, a) && a.DeleteChunk?
    ensures Inv(c, initial, Step(c, w, a))
  {
    hide NoDup, History;
    var w' := Step(c, w, a);
    assert DeletionOk(w, a.p);
    forall p | 0 <= p < |w'.procs| ensures ProcOk(initial, w', p) && DeletionOk(w', p) {
      assert ProcOk(initial, w, p) && DeletionOk(w, p);
    }
  }

  lemma LostStep(c: Config, initial: Option<Slot>, w: World, p: nat)
    requires Inv(c, initial, w) && Possible(w, Write(p)) && !Wins(c, w, p)
    ensures Inv(c, initial, Step(c, w, Write(p)))
  {
    hide NoDup, History;
    var w' := Step(c, w, Write(p));
    assert ProcOk(initial, w, p);
    assert w.procs[p].phase.seen < |w.changes|;
    forall q | 0 <= q < |w'.procs| ensures ProcOk(initial, w', q) && DeletionOk(w', q) {
      assert ProcOk(initial, w, q) && DeletionOk(w, q);
    }
  }

  /** An uncut write that clobbers nothing keeps every listed key. */
  lemma NothingLacking(c: Config, initial: Option<Slot>, w: World, p: nat)
    requires Inv(c, initial, w) && Possible(w, Write(p)) && Wins(c, w, p) && !Clobbers(c, w, p)
    ensures !Lacks(w, p)
  {
    hide NoDup, History;
    assert ProcOk(initial, w, p);
    if c.cas && !Stale(w, p) { OutdatedWinIsStale(c, initial, w, p); }
  }

  lemma WonStep(c: Config, initial: Option<Slot>, w: World, p: nat)
    requires Inv(c, initial, w) && Possible(w, Write(p)) && Wins(c, w, p)
    ensures Inv(c, initial, Step(c, w, Write(p)))
  {
    hide NoDup, History, Clobbers, Lacks;
    var w' := Step(c, w, Write(p));
    var existing, key := w.procs[p].phase.existing, w.procs[p].key;
    assert ProcOk(initial, w, p);
    SlotNoDup(c, initial, w.changes, w.procs[p].phase.seen);
    ExtendedNoDup(KeysOf(existing), key, c.max);
    HistoryGrows(c, initial, w.changes, Change(Some(p), w'.slot));
    forall q | 0 <= q < |w'.procs| ensures ProcOk(initial, w', q) && DeletionOk(w', q) {
      assert ProcOk(initial, w, q) && DeletionOk(w, q);
      if q != p { OthersOk(initial, w, w', Change(Some(p), w'.slot), q); }
    }
    if !w'.cut && !w'.clobbered { WonKeeps(c, initial, w, p); }
  }

  lemma WonKeeps(c: Config, initial: Option<Slot>, w: World, p: nat)
    requires Inv(c, initial, w) && Possible(w, Write(p)) && Wins(c, w, p)
    requires var w' := Step(c, w, Write(p)); !w'.cut && !w'.clobbered
    ensures forall k :: k in KeysOf(w.slot) || k == w.procs[p].key ==> k in KeysOf(Step(c, w, Write(p)).slot)
  {
    hide NoDup, History, Inv;
    NothingLacking(c, initial, w, p);
  }

  lemma SlotNoDup(c: Config, initial: Option<Slot>, changes: seq<Change>, n: nat)
    requires History(c, initial, changes) && n <= |changes|
    ensures NoDup(KeysOf(SlotAt(initial, changes, n)))
  {
    hide NoDup;
  }

  lemma EveryStep(c: Config, initial: Option<Slot>, w: World, a: Action)
    requires Inv(c, initial, w) && Possible(w, a)
    ensures Inv(c, initial, Step(c, w, a))
  {
    hide Inv, Step, Wins;
    match a
    case Store(_) => EntryStep(c, initial, w, a);
    case Evict(_) => EntryStep(c, initial, w, a);
    case Expire => RemovalStep(c, initial, w, a);
    case DropIndex(_) => RemovalStep(c, initial, w, a);
    case Begin(_, _) => FirstStep(c, initial, w, a);
    case Read(_) => ReadStep(c, initial, w, a);
    case ListKeys(_) => FirstStep(c, initial, w, a);
    case DeleteChunk(_) => DeleteStep(c, initial, w, a);
    case Write(p) => if Wins(c, w, p) { WonStep(c, initial, w, p); } else { LostStep(c, initial, w, p); }
  }

  // ----- Runs

  ghost predicate Reaches(c: Config, w: World, actions: seq<Action>, w': World)
    decreases |actions|
  {
    if actions == [] then w == w' else Possible(w, actions[0]) && Reaches(c, Step(c, w, actions[0]), actions[1..], w')
  }

  function Start(initial: Option<Slot>, entries: map<string, nat>, n: nat): World {
    World(initial, entries, 0, seq(n, _ => Proc("", Idle, 0)), [], {}, false, false)
  }

  lemma {:induction false} RunKeeps(c: Config, initial: Option<Slot>, w: World, actions: seq<Action>, w': World)
    requires Inv(c, initial, w) && Reaches(c, w, actions, w')
    ensures Inv(c, initial, w')
    decreases |actions|
  {
    hide Inv, Step;
    if actions != [] {
      EveryStep(c, initial, w, actions[0]);
      RunKeeps(c, initial, Step(c, w, actions[0]), actions[1..], w');
    }
  }

  lemma StartOk(c: Config, initial: Option<Slot>, entries: map<string, nat>, n: nat)
    requires NoDup(KeysOf(initial))
    ensures Inv(c, initial, Start(initial, entries, n))
  {
  }

  /**
   * In every run: a key reported as stored since the index was last removed is listed, unless since then a
   * list was cut or written over keys it lacked; and no key is listed twice.
   */
  lemma NoKeyLost(c: Config, initial: Option<Slot>, entries: map<string, nat>, n: nat, run: seq<Action>, w: World)
    requires NoDup(KeysOf(initial)) && Reaches(c, Start(initial, entries, n), run, w)
    ensures !w.cut && !w.clobbered ==> forall k :: k in w.reported ==> k in KeysOf(w.slot)
    ensures NoDup(KeysOf(w.slot))
  {
    hide Step, NoDup, Reaches;
    StartOk(c, initial, entries, n);
    RunKeeps(c, initial, Start(initial, entries, n), run, w);
    SlotNoDup(c, initial, w.changes, |w.changes|);
  }

  /**
   * After every run: a write that does not cut its list drops a listed key exactly when the list it was built
   * from was read before a removal of the index, or without compare-and-set before any change of it, and lacks
   * a key that is neither there nor the writer's own. Otherwise the key is appended to the stored list.
   */
  lemma LossIff(c: Config, initial: Option<Slot>, entries: map<string, nat>, n: nat, run: seq<Action>, w: World, p: nat)
    requires NoDup(KeysOf(initial)) && Reaches(c, Start(initial, entries, n), run, w)
    requires Possible(w, Write(p)) && !Cuts(c, w, p)
    ensures var w' := Step(c, w, Write(p));
            (exists k :: k in KeysOf(w.slot) && k !in KeysOf(w'.slot)) <==> Clobbers(c, w, p)
    ensures c.cas && Wins(c, w, p) && !Stale(w, p) ==>
              KeysOf(Step(c, w, Write(p)).slot) == KeysOf(w.slot) + [w.procs[p].key]
  {
    hide Reaches, NoDup, History, Inv;
    StartOk(c, initial, entries, n);
    RunKeeps(c, initial, Start(initial, entries, n), run, w);
    if Wins(c, w, p) {
      var existing, key := KeysOf(w.procs[p].phase.existing), w.procs[p].key;
      assert Extended(existing, key, c.max) == existing + [key];
      assert forall k :: k in existing + [key] <==> k in existing || k == key;
      if !Clobbers(c, w, p) { NothingLacking(c, initial, w, p); }
      if c.cas && !Stale(w, p) { OutdatedWinIsStale(c, initial, w, p); }
    }
  }

  /**
   * In every run: a process that has given up changed nothing since it began, while others changed the index at
   * least four times; one on its way has lost each attempt so far to such a change; and one whose write will
   * fail has been overtaken by somebody else since it read.
   */
  lemma FailuresAreMatched(c: Config, initial: Option<Slot>, entries: map<string, nat>, n: nat, run: seq<Action>,
      w: World, p: nat)
    requires NoDup(KeysOf(initial)) && Reaches(c, Start(initial, entries, n), run, w) && p < |w.procs|
    ensures var me := w.procs[p];
            (me.phase == Done(false) ==> |w.changes| >= me.began + CAS_RETRIES && NotBy(w.changes, p, me.began))
            && (me.phase.Reading? ==> |w.changes| >= me.began + me.phase.attempt && NotBy(w.changes, p, me.began))
            && (me.phase.Writing? && !Wins(c, w, p)
               ==> |w.changes| > me.phase.seen && NotBy(w.changes, p, me.phase.seen))
  {
    hide Step, NoDup, Reaches;
    StartOk(c, initial, entries, n);
    RunKeeps(c, initial, Start(initial, entries, n), run, w);
    assert ProcOk(initial, w, p);
  }

  /** What a write leaves: the list it was built from with its key behind it, cut to the newest. */
  lemma WriteKeepsNewest(c: Config, w: World, p: nat)
    requires Possible(w, Write(p)) && Wins(c, w, p)
    ensures var keys, all := KeysOf(Step(c, w, Write(p)).slot), KeysOf(w.procs[p].phase.existing) + [w.procs[p].key];
            |keys| == (if |all| <= c.max then |all| else c.max) && keys == all[|all| - |keys|..]
  {
    hide Clobbers, Cuts;
  }

  ghost predicate Bounded(c: Config, w: World) {
    |KeysOf(w.slot)| <= c.max
    && forall p :: 0 <= p < |w.procs| && w.procs[p].phase.Writing? ==> |KeysOf(w.procs[p].phase.existing)| <= c.max
  }

  lemma StaysBounded(c: Config, w: World, a: Action)
    requires Bounded(c, w) && Possible(w, a)
    ensures Bounded(c, Step(c, w, a))
  {
    hide Clobbers, Cuts, DoDeleteChunk;
    if a.Write? && Wins(c, w, a.p) { WriteKeepsNewest(c, w, a.p); }
    if a.DeleteChunk? { ChunkLeavesLists(w, a.p); }
  }

  lemma ChunkLeavesLists(w: World, p: nat)
    requires Possible(w, DeleteChunk(p))
    ensures var t := DoDeleteChunk(w, p);
            t.slot == w.slot && |t.procs| == |w.procs| && t.procs[p].phase.Clearing?
            && forall q :: 0 <= q < |w.procs| && q != p ==> t.procs[q] == w.procs[q]
  {
  }

  /** In every run a list that starts within its limit stays there. */
  lemma {:induction false} ListWithinLimit(c: Config, w: World, actions: seq<Action>, w': World)
    requires Bounded(c, w) && Reaches(c, w, actions, w')
    ensures |KeysOf(w'.slot)| <= c.max && Bounded(c, w')
    decreases |actions|
  {
    hide Step;
    if actions != [] {
      StaysBounded(c, w, actions[0]);
      ListWithinLimit(c, Step(c, w, actions[0]), actions[1..], w');
    }
  }

  // ----- Invalidation

  /** The key was put on the list after the invalidation read it. */
  ghost predicate AddedSince(initial: Option<Slot>, w: World, seen: nat, key: string) {
    exists i :: seen <= i < |w.changes| && key !in KeysOf(SlotAt(initial, w.changes, i))
        && key in KeysOf(w.changes[i].slot)
  }

  lemma {:induction false} FindAddition(initial: Option<Slot>, changes: seq<Change>, seen: nat, m: nat, key: string)
      returns (i: nat)
    requires seen <= m <= |changes|
    requires key !in KeysOf(SlotAt(initial, changes, seen)) && key in KeysOf(SlotAt(initial, changes, m))
    ensures seen <= i < m && key !in KeysOf(SlotAt(initial, changes, i)) && key in KeysOf(changes[i].slot)
  {
    if key in KeysOf(SlotAt(initial, changes, m - 1)) {
      i := FindAddition(initial, changes, seen, m - 1, key);
    } else {
      i := m - 1;
    }
  }

  /** The entry was stored after the invalidation had deleted it. */
  predicate StoredAgain(w: World, p: nat, key: string)
    requires Possible(w, DropIndex(p))
  {
    var x := w.procs[p].phase;
    key in w.entries
    && exists i :: 0 <= i < |x.listed| == |x.deleted| && x.listed[i] == key && w.entries[key] >= x.deleted[i]
  }

  /**
   * After every run: of the keys listed when an invalidation removes the index, those keep a live entry, which
   * then is listed no more, whose entry was stored after the invalidation had deleted it, or is live and was
   * put on the list after the invalidation had read it; and no others.
   */
  lemma OrphanedIff(c: Config, initial: Option<Slot>, entries: map<string, nat>, n: nat, run: seq<Action>, w: World,
      p: nat, key: string)
    requires NoDup(KeysOf(initial)) && Reaches(c, Start(initial, entries, n), run, w) && Possible(w, DropIndex(p))
    requires key in KeysOf(w.slot)
    ensures var x, after := w.procs[p].phase, Step(c, w, DropIndex(p));
            key !in KeysOf(after.slot) &&
            (key in after.entries <==>
               if key in x.listed then StoredAgain(w, p, key)
                   else key in w.entries && AddedSince(initial, w, x.seen, key))
  {
    hide NoDup, Reaches, History;
    StartOk(c, initial, entries, n);
    RunKeeps(c, initial, Start(initial, entries, n), run, w);
    assert ProcOk(initial, w, p) && DeletionOk(w, p);
    var x := w.procs[p].phase;
    if key in x.listed {
      var i :| 0 <= i < |x.listed| && x.listed[i] == key;
    } else {
      var i := FindAddition(initial, w.changes, x.seen, |w.changes|, key);
    }
  }

  // ----- What can happen

  lemma Then(c: Config, w: World, a: Action, rest: seq<Action>, w': World)
    requires Possible(w, a) && Reaches(c, Step(c, w, a), rest, w')
    ensures Reaches(c, w, [a] + rest, w')
  {
    hide Step;
    assert ([a] + rest)[1..] == rest;
  }

  /**
   * A removal restarts the revisions: a list read before it can be committed over a list written after it, and
   * a key reported as stored is gone.
   */
  lemma RestartedRevisionLosesKey(c: Config, a: string, b: string, k: string)
    requires c.cas && c.max >= 2 && a != k && b != k && a != b
    ensures exists w ::
      Reaches(c, Start(Some(Slot([a], 1)), map[], 2),
              [Begin(0, b)] + ([Read(0)] + ([Expire]
                  + ([Begin(1, k)] + ([Read(1)] + ([Write(1)] + ([Write(0)] + [])))))), w)
      && k in w.reported && w.slot == Some(Slot([a, b], 2)) && !w.cut
  {
    hide Reaches, Clobbers;
    var w0 := Start(Some(Slot([a], 1)), map[], 2);
    var w1 := Step(c, w0, Begin(0, b));
    var w2 := Step(c, w1, Read(0));
    assert w2.procs[0].phase == Writing(0, Some(Slot([a], 1)), 0);
    var w3 := Step(c, w2, Expire);
    var w4 := Step(c, w3, Begin(1, k));
    var w5 := Step(c, w4, Read(1));
    assert w5.procs[1].phase == Writing(0, None, 1) && w5.procs[0] == w2.procs[0];
    var w6 := Step(c, w5, Write(1));
    var none: seq<string> := [];
    assert none + [k] == [k];
    assert w6.slot == Some(Slot([k], 1)) && w6.procs[0] == w2.procs[0];
    var w7 := Step(c, w6, Write(0));
    assert [a] + [b] == [a, b];
    Finished(c, w7);
    Then(c, w6, Write(0), [], w7);
    Then(c, w5, Write(1), [Write(0)] + [], w7);
    Then(c, w4, Read(1), [Write(1)] + ([Write(0)] + []), w7);
    Then(c, w3, Begin(1, k), [Read(1)] + ([Write(1)] + ([Write(0)] + [])), w7);
    Then(c, w2, Expire, [Begin(1, k)] + ([Read(1)] + ([Write(1)] + ([Write(0)] + []))), w7);
    Then(c, w1, Read(0), [Expire] + ([Begin(1, k)] + ([Read(1)] + ([Write(1)] + ([Write(0)] + [])))), w7);
    Then(c, w0, Begin(0, b), [Read(0)] + ([Expire] + ([Begin(1, k)]
        + ([Read(1)] + ([Write(1)] + ([Write(0)] + []))))), w7);
  }

  lemma Finished(c: Config, w: World)
    ensures Reaches(c, w, [], w)
  {
  }

  /**
   * An entry stored and registered while an invalidation is under way keeps its data and loses its place on the
   * list, and the next invalidation does not find it.
   */
  lemma AddedMeanwhileIsOrphaned(c: Config, key: string)
    requires c.max >= 1
    ensures exists w ::
      Reaches(c, Start(None, map[], 2),
              [ListKeys(0)] + ([Store(key)] + ([Begin(1, key)]
                  + ([Read(1)] + ([Write(1)] + ([DropIndex(0)] + ([ListKeys(0)] + [])))))), w)
      && w.procs == [Proc("", Clearing([], 2, []), 0), Proc(key, Done(true), 0)] && key in w.entries && w.slot == None
  {
    hide Reaches, Clobbers, Cuts, DoDeleteChunk;
    var w0 := Start(None, map[], 2);
    var w1 := Step(c, w0, ListKeys(0));
    var w2 := Step(c, w1, Store(key));
    var w3 := Step(c, w2, Begin(1, key));
    var w4 := Step(c, w3, Read(1));
    assert w4.procs[1] == Proc(key, Writing(0, None, 0), 0) && w4.procs[0] == w1.procs[0];
    var w5 := Step(c, w4, Write(1));
    assert w5.procs[0] == w1.procs[0];
    var w6 := Step(c, w5, DropIndex(0));
    var w7 := Step(c, w6, ListKeys(0));
    Finished(c, w7);
    Then(c, w6, ListKeys(0), [], w7);
    Then(c, w5, DropIndex(0), [ListKeys(0)] + [], w7);
    Then(c, w4, Write(1), [DropIndex(0)] + ([ListKeys(0)] + []), w7);
    Then(c, w3, Read(1), [Write(1)] + ([DropIndex(0)] + ([ListKeys(0)] + [])), w7);
    Then(c, w2, Begin(1, key), [Read(1)] + ([Write(1)] + ([DropIndex(0)] + ([ListKeys(0)] + []))), w7);
    Then(c, w1, Store(key), [Begin(1, key)] + ([Read(1)] + ([Write(1)] + ([DropIndex(0)] + ([ListKeys(0)] + [])))), w7);
    Then(c, w0, ListKeys(0), [Store(key)] + ([Begin(1, key)]
        + ([Read(1)] + ([Write(1)] + ([DropIndex(0)] + ([ListKeys(0)] + []))))), w7);
  }
}
