/**
 * The refresh protocol (src/runtime.ts with src/tag-index.ts) for one cache key:
 * any number of processes read, lock, compute, check tombstones, compare-and-set
 * and release, while tag invalidations, removals and the clock interleave.
 * Every `await` of the source ends one step.
 */
module Refresh {
  import opened Wrappers
  import opened Entries

  type ProcId = nat
  type Tag = string
  type Token = nat

  /** The options of the cached function and of the runtime it belongs to. */
  datatype Config = Config(
    tags: set<Tag>,
    ttlMs: Option<nat>, staleTtlMs: Option<nat>, errorTtlMs: Option<nat>,
    cacheNull: bool, cacheErrors: bool,
    strict: bool,
    // The function reads tombstones under the keys under which invalidations write them.
    findsTombstones: bool,
    locks: bool, lockTtlMs: nat, proceedOnTimeout: bool,
    background: bool, serveStaleOnError: bool,
    failOpenReads: bool, failClosedWrites: bool)

  /** A stored entry; `startedAt` is when the computation of its payload began. */
  datatype Entry = Entry(
    revision: nat, state: EntryState, expiresAt: Deadline, staleUntil: Option<Deadline>,
    payload: nat, createdAt: int, startedAt: int)

  function FreshnessOf(e: Entry, now: int): Freshness {
    GetFreshness(e.expiresAt, e.staleUntil, now)
  }

  datatype Lock = Lock(token: Token, expiresAt: int)

  /**
   * One successful compare-and-set: what was written and when its write began, what its writer had seen, and which
   * tombstones it had read.
   */
  datatype Commit = Commit(
    inc: nat, revision: nat, writer: ProcId, seenInc: nat, seenLen: nat,
    startedAt: int, state: EntryState, payload: nat, at: int, read: map<Tag, Option<int>>, vetted: map<Tag, int>)

  /** Why a process is computing. */
  datatype Reason = ByLock | LocksOff | AcquireError | WaitTimeout | PeerCorrupt

  datatype Source = FromCache(entry: Entry, at: int) | FromSource(payload: nat)
  datatype Answer = Returned(source: Source) | Threw

  datatype Pc =
    | Idle | Judging | Deserializing | Dropping
    | Locking | Rereading | JudgingReread | ReleasingEarly | Polling | JudgingPoll
    | PeerDeserializing | PeerDropping
    | Computing | Checking | Committing | Releasing

  /** What the call saw when it read the key, and where the log stood at that moment. */
  datatype Seen = Seen(observed: Option<nat>, inc: nat, rev: nat, len: nat)

  datatype Lease = Lease(token: Option<Token>, end: int, reason: Reason)

  /** A `writeEntry` in progress, with the tombstones read so far. */
  datatype Job = Job(state: EntryState, payload: nat, now: int, read: map<Tag, Option<int>>, vetted: map<Tag, int>)

  datatype Proc = Proc(
    pc: Pc, found: Option<Entry>, judgedAt: int, seen: Seen, startedAt: int,
    lease: Lease, job: Job, fallback: Option<Source>, detached: bool, answer: Answer)

  const IDLE := Proc(Idle, None, 0, Seen(None, 0, 0, 0), 0, Lease(None, 0, LocksOff),
      Job(ValueState, 0, 0, map[], map[]), None, false, Threw)

  /** An `invalidateTags` call on its way through one tag. */
  datatype Invalidation = Invalidation(tag: Tag, at: int, deleted: bool)

  /** The shared storage: the entry, how often it was removed, the lock, the tombstones. */
  datatype Store = Store(entry: Option<Entry>, inc: nat, lock: Option<Lock>, tombs: map<Tag, int>)

  /** Commits, answers, the latest invalidation time stored per tag, and the fate of every lock token. */
  datatype History = History(
    log: seq<Commit>, answers: seq<Answer>, latest: map<Tag, int>,
    used: set<Token>, released: multiset<Token>, leaked: set<Token>)

  /** Running invalidations; tags whose invalidations overlapped; tombstones or locks the storage lost. */
  datatype Environment = Environment(
    running: map<nat, Invalidation>, overlapped: set<Tag>, dropped: set<Tag>, lockDropped: bool)

  datatype State = State(clock: int, store: Store, procs: seq<Proc>, hist: History, env: Environment)

  function Start(n: nat): State {
    State(0, Store(None, 0, None, map[]), seq(n, _ => IDLE), History([], [], map[], {}, multiset{}, {}),
        Environment(map[], {}, {}, false))
  }

  function Put(s: State, p: ProcId, x: Proc): State
    requires p < |s.procs|
  {
    s.(procs := s.procs[p := x])
  }

  /** The stored revision, 0 when the key is absent. */
  function Rev(s: State): nat {
    if s.store.entry.Some? then s.store.entry.value.revision else 0
  }

  /** Removal of the key for any reason: delete, expiry, eviction, invalidation. */
  function Removed(s: State): State {
    if s.store.entry.Some? then s.(store := s.store.(entry := None, inc := s.store.inc + 1)) else s
  }

  datatype SourceResult = Produced(payload: nat) | ProducedNull | Failed | FailedByAbort

  datatype Action =
    | Tick(dt: nat)
    | RemoveEntry
    | DropTombstone(tag: Tag)
    | DropLock
    | BeginInvalidation(id: nat, tag: Tag)
    | DeleteTagged(id: nat, ok: bool)
    | StoreTombstone(id: nat, ok: bool)
    | Read(p: ProcId, ok: bool)
    | Judge(p: ProcId)
    | Deserialize(p: ProcId, ok: bool)
    | DropCorrupt(p: ProcId, ok: bool)
    | TryLock(p: ProcId, token: Token)
    | LockError(p: ProcId)
    | Reread(p: ProcId, ok: bool)
    | JudgeReread(p: ProcId)
    | ReleaseEarly(p: ProcId, ok: bool)
    | Poll(p: ProcId, ok: bool)
    | JudgePoll(p: ProcId, timedOut: bool)
    | PeerDeserialize(p: ProcId, ok: bool)
    | PeerDrop(p: ProcId, ok: bool)
    | Compute(p: ProcId, result: SourceResult, aborted: bool)
    | CheckTag(p: ProcId, tag: Tag)
    | CheckError(p: ProcId)
    | CheckDone(p: ProcId)
    | PrepareError(p: ProcId, tooLarge: bool, aborted: bool)
    | CompareAndSet(p: ProcId)
    | CommitError(p: ProcId, aborted: bool)
    | Release(p: ProcId, ok: bool)

  // ----- Steps of one process

  function Told(s: State, answer: Answer): State {
    s.(hist := s.hist.(answers := s.hist.answers + [answer]))
  }

  /** The call ends: its answer is recorded unless it runs detached; a failed revalidation may serve stale data. */
  function Finish(s: State, p: ProcId, answer: Answer): State
    requires p < |s.procs|
  {
    var x := s.procs[p];
    var shown := if answer.Threw? && x.fallback.Some? then Returned(x.fallback.value) else answer;
    Put(if x.detached then s else Told(s, shown), p, IDLE)
  }

  /** `refresh`: the start time is taken, then the lock is attempted. */
  function BeginRefresh(cfg: Config, s: State, p: ProcId, x: Proc): State
    requires p < |s.procs|
  {
    Put(s, p, x.(startedAt := s.clock, pc := if cfg.locks then Locking
        else Computing, lease := Lease(None, 0, LocksOff)))
  }

  function DoRead(cfg: Config, s: State, p: ProcId, ok: bool): State
    requires p < |s.procs|
  {
    if !ok && !cfg.failOpenReads then Told(s, Threw)
    else
      var e := if ok then s.store.entry else None;
      var observed := if e.Some? then Some(e.value.revision) else None;
      Put(s, p, IDLE.(pc := Judging, found := e, seen := Seen(observed, s.store.inc, Rev(s), |s.hist.log|)))
  }

  function DoJudge(cfg: Config, s: State, p: ProcId): State
    requires p < |s.procs|
  {
    var x := s.procs[p];
    if x.found.Some? && FreshnessOf(x.found.value, s.clock) != Expired then
      Put(s, p, x.(pc := Deserializing, judgedAt := s.clock))
    else BeginRefresh(cfg, s, p, x)
  }

  /** A cached error is thrown, anything else is returned. */
  function Serve(x: Proc): Answer {
    if x.found.None? || x.found.value.state.ErrorState? then Threw else Returned(FromCache(x.found.value, x.judgedAt))
  }

  function DoDeserialize(cfg: Config, s: State, p: ProcId, ok: bool): State
    requires p < |s.procs| && s.procs[p].found.Some?
  {
    var x := s.procs[p];
    var cached := FromCache(x.found.value, x.judgedAt);
    if !ok then Put(s, p, x.(pc := Dropping))
    else if FreshnessOf(x.found.value, x.judgedAt) == Fresh then Finish(s, p, Serve(x))
    else if cfg.background then BeginRefresh(cfg, Told(s, Returned(cached)), p, x.(detached := true))
    else BeginRefresh(cfg, s, p, x.(fallback := if cfg.serveStaleOnError then Some(cached) else None))
  }

  /** A corrupt payload is deleted, best effort, and counts as a miss. */
  function DoDropCorrupt(cfg: Config, s: State, p: ProcId, ok: bool): State
    requires p < |s.procs|
  {
    BeginRefresh(cfg, if ok then Removed(s) else s, p, s.procs[p].(seen := s.procs[p].seen.(observed := None)))
  }

  // ----- `acquireLockOrWait`

  function DoTryLock(cfg: Config, s: State, p: ProcId, token: Token): State
    requires p < |s.procs|
  {
    var x := s.procs[p];
    if s.store.lock.Some? && s.clock < s.store.lock.value.expiresAt then Put(s, p, x.(pc := Polling))
    else
      var end := s.clock + cfg.lockTtlMs;
      Put(s, p, x.(pc := Rereading, lease := Lease(Some(token), end, ByLock)))
        .(store := s.store.(lock := Some(Lock(token, end))), hist := s.hist.(used := s.hist.used + {token}))
  }

  function DoLockError(s: State, p: ProcId): State
    requires p < |s.procs|
  {
    Put(s, p, s.procs[p].(pc := Computing, lease := Lease(None, 0, AcquireError)))
  }

  /** A read that throws here leaves `acquireLockOrWait`, and nobody releases the lock any more. */
  function DoReread(cfg: Config, s: State, p: ProcId, ok: bool): State
    requires p < |s.procs| && s.procs[p].lease.token.Some?
  {
    var x := s.procs[p];
    if !ok && !cfg.failOpenReads then
      Finish(s.(hist := s.hist.(leaked := s.hist.leaked + {x.lease.token.value})), p, Threw)
    else Put(s, p, x.(pc := JudgingReread, found := if ok then s.store.entry else None))
  }

  /** A peer may have populated the key while this process waited for the lock. */
  function DoJudgeReread(s: State, p: ProcId): State
    requires p < |s.procs|
  {
    var x := s.procs[p];
    if x.found.Some? && FreshnessOf(x.found.value, s.clock) == Fresh
        then Put(s, p, x.(pc := ReleasingEarly, judgedAt := s.clock))
    else Put(s, p, x.(pc := Computing))
  }

  /** `release` deletes the lock only while it still carries the caller's token. */
  function Unlock(s: State, token: Token, ok: bool): State {
    s.(store := s.store.(lock := if ok && s.store.lock.Some? && s.store.lock.value.token == token then None
        else s.store.lock),
       hist := s.hist.(released := s.hist.released + multiset{token}))
  }

  function DoReleaseEarly(s: State, p: ProcId, ok: bool): State
    requires p < |s.procs| && s.procs[p].lease.token.Some?
  {
    var x := s.procs[p];
    Put(Unlock(s, x.lease.token.value, ok), p, x.(pc := PeerDeserializing, lease := x.lease.(token := None)))
  }

  function DoPoll(cfg: Config, s: State, p: ProcId, ok: bool): State
    requires p < |s.procs|
  {
    if !ok && !cfg.failOpenReads then Finish(s, p, Threw)
    else Put(s, p, s.procs[p].(pc := JudgingPoll, found := if ok then s.store.entry else None))
  }

  function DoJudgePoll(cfg: Config, s: State, p: ProcId, timedOut: bool): State
    requires p < |s.procs|
  {
    var x := s.procs[p];
    if x.found.Some? && FreshnessOf(x.found.value, s.clock) == Fresh
        then Put(s, p, x.(pc := PeerDeserializing, judgedAt := s.clock))
    else if !timedOut then Put(s, p, x.(pc := Locking))
    else if cfg.proceedOnTimeout then Put(s, p, x.(pc := Computing, lease := Lease(None, 0, WaitTimeout)))
    else Finish(s, p, Threw)
  }

  function DoPeerDeserialize(s: State, p: ProcId, ok: bool): State
    requires p < |s.procs|
  {
    var x := s.procs[p];
    if !ok then Put(s, p, x.(pc := PeerDropping)) else Finish(s, p, Serve(x))
  }

  function DoPeerDrop(s: State, p: ProcId, ok: bool): State
    requires p < |s.procs|
  {
    Put(if ok then Removed(s) else s, p, s.procs[p].(pc := Computing, lease := Lease(None, 0, PeerCorrupt)))
  }

  // ----- Computing and `writeEntry`

  function BeginWrite(cfg: Config, s: State, p: ProcId, x: Proc, state: EntryState, payload: nat, answer: Answer): State
    requires p < |s.procs|
  {
    Put(s, p, x.(
      pc := if cfg.strict && cfg.tags != {} then Checking else Committing,
      job := Job(state, payload, s.clock, map[], map[]), answer := answer))
  }

  /** `finally`: a held lock is released, then the call ends. */
  function Wrap(s: State, p: ProcId, answer: Answer): State
    requires p < |s.procs|
  {
    Put(s, p, s.procs[p].(pc := Releasing, answer := answer))
  }

  /** The `catch` around the computation and its write. */
  function OnError(cfg: Config, s: State, p: ProcId, cacheable: bool): State
    requires p < |s.procs|
  {
    if cfg.cacheErrors && cacheable then BeginWrite(cfg, s, p, s.procs[p], ErrorState, 0, Threw) else Wrap(s, p, Threw)
  }

  function DoCompute(cfg: Config, s: State, p: ProcId, result: SourceResult, aborted: bool): State
    requires p < |s.procs|
  {
    match result
    case Produced(v) =>
      if aborted then Wrap(s, p, Returned(FromSource(v)))
      else BeginWrite(cfg, s, p, s.procs[p], ValueState, v, Returned(FromSource(v)))
    case ProducedNull =>
      if aborted || !cfg.cacheNull then Wrap(s, p, Returned(FromSource(0)))
      else BeginWrite(cfg, s, p, s.procs[p], NullState, 0, Returned(FromSource(0)))
    case Failed => OnError(cfg, s, p, !aborted)
    case FailedByAbort => OnError(cfg, s, p, false)
  }

  function DoCheckTag(cfg: Config, s: State, p: ProcId, t: Tag): State
    requires p < |s.procs|
  {
    var x := s.procs[p];
    var found := if cfg.findsTombstones && t in s.store.tombs then Some(s.store.tombs[t]) else None;
    var vetted := if t in s.hist.latest then x.job.vetted[t := s.hist.latest[t]] else x.job.vetted;
    Put(s, p, x.(job := x.job.(read := x.job.read[t := found], vetted := vetted)))
  }

  /** A tombstone that cannot be read only produces a warning. */
  function DoCheckError(s: State, p: ProcId): State
    requires p < |s.procs|
  {
    var x := s.procs[p];
    Put(s, p, x.(pc := Committing, job := x.job.(read := map[], vetted := map[])))
  }

  predicate Refused(x: Proc) {
    exists t :: t in x.job.read && x.job.read[t].Some? && x.job.read[t].value >= x.startedAt
  }

  function DoCheckDone(s: State, p: ProcId): State
    requires p < |s.procs|
  {
    var x := s.procs[p];
    if Refused(x) then Wrap(s, p, x.answer) else Put(s, p, x.(pc := Committing))
  }

  /**
   * Serialization or the storage failed. Under fail-closed writes all but an oversized value throws:
   * for an error entry the exception is swallowed, otherwise it is caught like a failed computation.
   */
  function DoWriteError(cfg: Config, s: State, p: ProcId, tooLarge: bool, aborted: bool): State
    requires p < |s.procs|
  {
    var x := s.procs[p];
    if tooLarge || !cfg.failClosedWrites || x.job.state.ErrorState? then Wrap(s, p, x.answer)
    else OnError(cfg, s, p, !aborted)
  }

  function NewEntry(cfg: Config, x: Proc): Entry {
    var ttl := if x.job.state.ErrorState? then cfg.errorTtlMs else cfg.ttlMs;
    var staleTtl := if x.job.state.ErrorState? then None else cfg.staleTtlMs;
    Entry(
      (if x.seen.observed.Some? then x.seen.observed.value else 0) + 1, x.job.state,
      if ttl.None? then Never else At(x.job.now + ttl.value),
      if ttl.None? || staleTtl.None? then None else Some(At(x.job.now + ttl.value + staleTtl.value)),
      x.job.payload, x.job.now, x.startedAt)
  }

  /** The stored revision, or its absence, is the observed one. */
  predicate Matches(s: State, x: Proc) {
    if x.seen.observed.None? then s.store.entry.None?
    else s.store.entry.Some? && s.store.entry.value.revision == x.seen.observed.value
  }

  function DoCompareAndSet(cfg: Config, s: State, p: ProcId): State
    requires p < |s.procs|
  {
    var x := s.procs[p];
    if !Matches(s, x) then Wrap(s, p, x.answer)
    else
      var e := NewEntry(cfg, x);
      var c := Commit(s.store.inc, e.revision, p, x.seen.inc, x.seen.len, x.startedAt, x.job.state, x.job.payload,
          x.job.now, x.job.read, x.job.vetted);
      Wrap(s, p, x.answer).(store := s.store.(entry := Some(e)), hist := s.hist.(log := s.hist.log + [c]))
  }

  function DoRelease(s: State, p: ProcId, ok: bool): State
    requires p < |s.procs|
  {
    var x := s.procs[p];
    Finish(if x.lease.token.Some? then Unlock(s, x.lease.token.value, ok) else s, p, x.answer)
  }

  // ----- The environment

  function DoBeginInvalidation(s: State, id: nat, tag: Tag): State {
    var r := s.env.running;
    s.(env := s.env.(
      running := r[id := Invalidation(tag, s.clock, false)],
      overlapped := if exists i :: i in r && r[i].tag == tag then s.env.overlapped + {tag} else s.env.overlapped))
  }

  function DoDeleteTagged(cfg: Config, s: State, id: nat, ok: bool): State
    requires id in s.env.running
  {
    var v := s.env.running[id];
    var t := if ok && v.tag in cfg.tags then Removed(s) else s;
    t.(env := s.env.(running := s.env.running[id := v.(deleted := true)]))
  }

  function DoStoreTombstone(s: State, id: nat, ok: bool): State
    requires id in s.env.running
  {
    var v := s.env.running[id];
    var t := s.(env := s.env.(running := s.env.running - {id}));
    if !ok then t
    else
      var latest := if v.tag in s.hist.latest && s.hist.latest[v.tag] > v.at then s.hist.latest[v.tag] else v.at;
      t.(store := s.store.(tombs := s.store.tombs[v.tag := v.at]),
          hist := s.hist.(latest := s.hist.latest[v.tag := latest]))
  }

  /** The process that takes the step; none for a step of the environment. */
  function Actor(a: Action): Option<ProcId> {
    match a
    case Tick(_) | RemoveEntry | DropTombstone(_) | DropLock => None
    case BeginInvalidation(_, _) | DeleteTagged(_, _) | StoreTombstone(_, _) => None
    case _ => Some(a.p)
  }

  predicate AtPc(s: State, p: ProcId, pc: Pc) {
    p < |s.procs| && s.procs[p].pc == pc
  }

  predicate Enabled(cfg: Config, s: State, a: Action) {
    match a
    case Tick(_) => true
    case RemoveEntry => true
    case DropTombstone(_) => true
    case DropLock => true
    case BeginInvalidation(id, _) => id !in s.env.running
    case DeleteTagged(id, _) => id in s.env.running && !s.env.running[id].deleted
    case StoreTombstone(id, _) => id in s.env.running && s.env.running[id].deleted
    case Read(p, _) => AtPc(s, p, Idle)
    case Judge(p) => AtPc(s, p, Judging)
    case Deserialize(p, _) => AtPc(s, p, Deserializing) && s.procs[p].found.Some?
    case DropCorrupt(p, _) => AtPc(s, p, Dropping)
    case TryLock(p, token) => AtPc(s, p, Locking) && token !in s.hist.used
    case LockError(p) => AtPc(s, p, Locking)
    case Reread(p, _) => AtPc(s, p, Rereading) && s.procs[p].lease.token.Some?
    case JudgeReread(p) => AtPc(s, p, JudgingReread)
    case ReleaseEarly(p, _) => AtPc(s, p, ReleasingEarly) && s.procs[p].lease.token.Some?
    case Poll(p, _) => AtPc(s, p, Polling)
    case JudgePoll(p, _) => AtPc(s, p, JudgingPoll)
    case PeerDeserialize(p, _) => AtPc(s, p, PeerDeserializing)
    case PeerDrop(p, _) => AtPc(s, p, PeerDropping)
    case Compute(p, _, _) => AtPc(s, p, Computing)
    case CheckTag(p, t) => AtPc(s, p, Checking) && t in cfg.tags && t !in s.procs[p].job.read
    case CheckError(p) => AtPc(s, p, Checking)
    case CheckDone(p) => AtPc(s, p, Checking) && s.procs[p].job.read.Keys == cfg.tags
    case PrepareError(p, _, _) => AtPc(s, p, Committing)
    case CompareAndSet(p) => AtPc(s, p, Committing)
    case CommitError(p, _) => AtPc(s, p, Committing)
    case Release(p, _) => AtPc(s, p, Releasing)
  }

  function Apply(cfg: Config, s: State, a: Action): State
    requires Enabled(cfg, s, a)
  {
    match a
    case Tick(dt) => s.(clock := s.clock + dt)
    case RemoveEntry => Removed(s)
    case DropTombstone(t) => s.(store := s.store.(tombs := s.store.tombs - {t}),
        env := s.env.(dropped := s.env.dropped + {t}))
    case DropLock => s.(store := s.store.(lock := None), env := s.env.(lockDropped := true))
    case BeginInvalidation(id, t) => DoBeginInvalidation(s, id, t)
    case DeleteTagged(id, ok) => DoDeleteTagged(cfg, s, id, ok)
    case StoreTombstone(id, ok) => DoStoreTombstone(s, id, ok)
    case Read(p, ok) => DoRead(cfg, s, p, ok)
    case Judge(p) => DoJudge(cfg, s, p)
    case Deserialize(p, ok) => DoDeserialize(cfg, s, p, ok)
    case DropCorrupt(p, ok) => DoDropCorrupt(cfg, s, p, ok)
    case TryLock(p, token) => DoTryLock(cfg, s, p, token)
    case LockError(p) => DoLockError(s, p)
    case Reread(p, ok) => DoReread(cfg, s, p, ok)
    case JudgeReread(p) => DoJudgeReread(s, p)
    case ReleaseEarly(p, ok) => DoReleaseEarly(s, p, ok)
    case Poll(p, ok) => DoPoll(cfg, s, p, ok)
    case JudgePoll(p, timedOut) => DoJudgePoll(cfg, s, p, timedOut)
    case PeerDeserialize(p, ok) => DoPeerDeserialize(s, p, ok)
    case PeerDrop(p, ok) => DoPeerDrop(s, p, ok)
    case Compute(p, result, aborted) => DoCompute(cfg, s, p, result, aborted)
    case CheckTag(p, t) => DoCheckTag(cfg, s, p, t)
    case CheckError(p) => DoCheckError(s, p)
    case CheckDone(p) => DoCheckDone(s, p)
    case PrepareError(p, tooLarge, aborted) => DoWriteError(cfg, s, p, tooLarge, aborted)
    case CompareAndSet(p) => DoCompareAndSet(cfg, s, p)
    case CommitError(p, aborted) => DoWriteError(cfg, s, p, false, aborted)
    case Release(p, ok) => DoRelease(s, p, ok)
  }

  // The steps by phase; proofs about every step go phase by phase.
  predicate EnvironmentStep(a: Action) { Actor(a).None? }
  predicate CallStep(a: Action) { a.Read? || a.Judge? || a.Deserialize? || a.DropCorrupt? || a.Release? }
  predicate LockStep(a: Action) { a.TryLock? || a.LockError? || a.Reread? || a.JudgeReread? || a.ReleaseEarly? }
  predicate WaitStep(a: Action) { a.Poll? || a.JudgePoll? || a.PeerDeserialize? || a.PeerDrop? }
  predicate CheckStep(a: Action) { a.Compute? || a.CheckTag? || a.CheckError? || a.CheckDone? }
  predicate WriteStep(a: Action) { a.PrepareError? || a.CompareAndSet? || a.CommitError? }

  /** A step changes no process but its actor. */
  predicate OnlyActor(s: State, t: State, a: Action) {
    && |t.procs| == |s.procs|
    && forall p :: 0 <= p < |s.procs| && Actor(a) != Some(p) ==> t.procs[p] == s.procs[p]
  }

  lemma OnlyActorMoves(cfg: Config, s: State, a: Action)
    requires Enabled(cfg, s, a)
    ensures OnlyActor(s, Apply(cfg, s, a), a)
  {
    if CallStep(a) { ActorOfCall(cfg, s, a); }
    else if LockStep(a) { ActorOfLock(cfg, s, a); }
    else if WaitStep(a) { ActorOfWait(cfg, s, a); }
    else if CheckStep(a) { ActorOfCheck(cfg, s, a); }
    else if WriteStep(a) { ActorOfWrite(cfg, s, a); }
  }

  lemma ActorOfCall(cfg: Config, s: State, a: Action)
    requires Enabled(cfg, s, a) && CallStep(a)
    ensures OnlyActor(s, Apply(cfg, s, a), a)
  {
  }

  lemma ActorOfLock(cfg: Config, s: State, a: Action)
    requires Enabled(cfg, s, a) && LockStep(a)
    ensures OnlyActor(s, Apply(cfg, s, a), a)
  {
  }

  lemma ActorOfWait(cfg: Config, s: State, a: Action)
    requires Enabled(cfg, s, a) && WaitStep(a)
    ensures OnlyActor(s, Apply(cfg, s, a), a)
  {
  }

  lemma ActorOfCheck(cfg: Config, s: State, a: Action)
    requires Enabled(cfg, s, a) && CheckStep(a)
    ensures OnlyActor(s, Apply(cfg, s, a), a)
  {
  }

  lemma ActorOfWrite(cfg: Config, s: State, a: Action)
    requires Enabled(cfg, s, a) && WriteStep(a)
    ensures OnlyActor(s, Apply(cfg, s, a), a)
  {
  }

  /** `run` can be performed from `s`, one enabled action after the other. */
  predicate CanRun(cfg: Config, s: State, run: seq<Action>)
    decreases |run|
  {
    run == [] || (Enabled(cfg, s, run[0]) && CanRun(cfg, Apply(cfg, s, run[0]), run[1..]))
  }

  function After(cfg: Config, s: State, run: seq<Action>): State
    requires CanRun(cfg, s, run)
    decreases |run|
  {
    if run == [] then s else After(cfg, Apply(cfg, s, run[0]), run[1..])
  }

  lemma {:induction false} Extend(cfg: Config, s: State, run: seq<Action>, a: Action)
    requires CanRun(cfg, s, run) && Enabled(cfg, After(cfg, s, run), a)
    ensures CanRun(cfg, s, run + [a])
    ensures After(cfg, s, run + [a]) == Apply(cfg, After(cfg, s, run), a)
    decreases |run|
  {
    if run == [] {
      assert run + [a] == [a];
    } else {
      assert (run + [a])[1..] == run[1..] + [a];
      Extend(cfg, Apply(cfg, s, run[0]), run[1..], a);
    }
  }

  lemma {:induction false} Continue(cfg: Config, s: State, run: seq<Action>, more: seq<Action>)
    requires CanRun(cfg, s, run) && CanRun(cfg, After(cfg, s, run), more)
    ensures CanRun(cfg, s, run + more) && After(cfg, s, run + more) == After(cfg, After(cfg, s, run), more)
    decreases |run|
  {
    hide Apply, Enabled;
    if run == [] {
      assert run + more == more;
    } else {
      assert (run + more)[1..] == run[1..] + more;
      Continue(cfg, Apply(cfg, s, run[0]), run[1..], more);
    }
  }

  /** Every action of a run was enabled after the actions before it, and led to the state after it. */
  lemma {:induction false} Prefix(cfg: Config, s: State, run: seq<Action>, i: nat)
    requires CanRun(cfg, s, run) && i <= |run|
    ensures CanRun(cfg, s, run[..i])
    ensures i < |run| ==>
              Enabled(cfg, After(cfg, s, run[..i]), run[i]) && CanRun(cfg, s, run[..i + 1])
              && After(cfg, s, run[..i + 1]) == Apply(cfg, After(cfg, s, run[..i]), run[i])
    decreases |run|
  {
    hide Apply, Enabled;
    if i > 0 {
      Prefix(cfg, Apply(cfg, s, run[0]), run[1..], i - 1);
      assert run[..i][1..] == run[1..][..i - 1];
      if i < |run| { assert run[..i + 1][1..] == run[1..][..i]; }
    } else if run != [] {
      assert run[..1][1..] == [];
    }
  }

  /** Steps of the environment and of processes other than `p`. */
  predicate Others(run: seq<Action>, p: ProcId) {
    forall i :: 0 <= i < |run| ==> Actor(run[i]) != Some(p)
  }

  lemma {:induction false} OthersLeave(cfg: Config, s: State, run: seq<Action>, p: ProcId)
    requires CanRun(cfg, s, run) && Others(run, p) && p < |s.procs|
    ensures |After(cfg, s, run).procs| == |s.procs| && After(cfg, s, run).procs[p] == s.procs[p]
    decreases |run|
  {
    hide Apply, Enabled;
    if run != [] {
      OnlyActorMoves(cfg, s, run[0]);
      OthersLeave(cfg, Apply(cfg, s, run[0]), run[1..], p);
    }
  }

  /** Lengthens a run by one enabled action. */
  lemma Onward(cfg: Config, s0: State, run: seq<Action>, s: State, a: Action) returns (run': seq<Action>, s': State)
    requires CanRun(cfg, s0, run) && s == After(cfg, s0, run) && Enabled(cfg, s, a)
    ensures run' == run + [a] && s' == Apply(cfg, s, a)
    ensures CanRun(cfg, s0, run') && s' == After(cfg, s0, run')
  {
    Extend(cfg, s0, run, a);
    run', s' := run + [a], Apply(cfg, s, a);
  }

  /** Lengthens a run from the start state by one enabled action. */
  lemma Then(cfg: Config, n: nat, run: seq<Action>, s: State, a: Action) returns (run': seq<Action>, s': State)
    requires CanRun(cfg, Start(n), run) && s == After(cfg, Start(n), run) && Enabled(cfg, s, a)
    ensures run' == run + [a] && s' == Apply(cfg, s, a)
    ensures CanRun(cfg, Start(n), run') && s' == After(cfg, Start(n), run')
  {
    run', s' := Onward(cfg, Start(n), run, s, a);
  }
}
