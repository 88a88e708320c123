/** Compare-and-set over every interleaving: revisions and lost updates. */
module RefreshRevisions {
  import opened Wrappers
  import opened Entries
  import opened Refresh

  /** Within one incarnation of the key revisions count 1, 2, 3, ... */
  predicate Counting(log: seq<Commit>) {
    && (forall i :: 0 <= i < |log| ==> log[i].revision >= 1)
    && (|log| > 0 ==> log[0].revision == 1)
    && (forall i :: 0 < i < |log| ==>
          && log[i - 1].inc <= log[i].inc
          && log[i].revision == if log[i - 1].inc == log[i].inc then log[i - 1].revision + 1 else 1)
  }

  /** A commit in the incarnation its writer read saw every earlier commit. */
  predicate NothingMissed(log: seq<Commit>) {
    forall i :: 0 <= i < |log| ==>
      && log[i].seenInc <= log[i].inc
      && log[i].seenLen <= i
      && (log[i].seenInc == log[i].inc ==> log[i].seenLen == i)
  }

  /** The stored entry is the last commit of the current incarnation. */
  predicate StoredIsLast(s: State) {
    var log := s.hist.log;
    if |log| > 0 && log[|log| - 1].inc == s.store.inc
    then s.store.entry.Some? && Rev(s) == log[|log| - 1].revision
    else s.store.entry.None? && (|log| > 0 ==> log[|log| - 1].inc < s.store.inc)
  }

  /** What a process remembers of its read is still exact, as long as the incarnation lasts. */
  predicate Remembers(s: State, x: Proc) {
    x.pc == Idle || (
      && x.seen.inc <= s.store.inc
      && x.seen.len <= |s.hist.log|
      && (x.seen.observed.Some? ==> x.seen.observed.value == x.seen.rev && x.seen.rev > 0)
      && (x.seen.inc == s.store.inc ==> Rev(s) == x.seen.rev + |s.hist.log| - x.seen.len)
      && (x.seen.inc < s.store.inc ==> |s.hist.log| - x.seen.len >= CommitsNeeded(s, x)))
  }

  /** Every incarnation begun since the read took a commit, except the one that was stored then. */
  function CommitsNeeded(s: State, x: Proc): int {
    s.store.inc - x.seen.inc - (if x.seen.rev > 0 then 1 else 0) + if s.store.entry.Some? then 1 else 0
  }

  /** The read failed, or its payload was dropped: an entry was there, but it is not what the write compares with. */
  predicate Blind(x: Proc) {
    x.seen.observed.None? && x.seen.rev > 0
  }

  predicate Inv(s: State) {
    && Counting(s.hist.log)
    && NothingMissed(s.hist.log)
    && StoredIsLast(s)
    && forall p :: 0 <= p < |s.procs| ==> Remembers(s, s.procs[p])
  }

  /** A step that leaves the stored entry and the log alone and gives its actor no new memory. */
  predicate Quiet(s: State, t: State, a: Action) {
    && t.store.entry == s.store.entry && t.store.inc == s.store.inc && t.hist.log == s.hist.log
    && |t.procs| == |s.procs|
    && (Actor(a).Some? ==> Actor(a).value < |s.procs| && KeepsMemory(s.procs[Actor(a).value], t.procs[Actor(a).value]))
  }

  predicate KeepsMemory(x: Proc, y: Proc) {
    y.pc == Idle || (x.pc != Idle && (y.seen == x.seen || y.seen == x.seen.(observed := None)))
  }

  lemma QuietKeeps(s: State, t: State, a: Action)
    requires Inv(s) && Quiet(s, t, a) && OnlyActor(s, t, a)
    ensures Inv(t)
  {
    hide Counting, NothingMissed;
    forall p | 0 <= p < |t.procs| ensures Remembers(t, t.procs[p]) {
      assert Remembers(s, s.procs[p]);
      assert t.procs[p] == s.procs[p] || KeepsMemory(s.procs[p], t.procs[p]);
    }
  }

  lemma RemovedKeeps(s: State)
    requires Inv(s)
    ensures Inv(Removed(s))
  {
    var t := Removed(s);
    forall p | 0 <= p < |t.procs| ensures Remembers(t, t.procs[p]) {
      assert Remembers(s, s.procs[p]);
    }
  }

  lemma StoredRevision(s: State)
    requires Counting(s.hist.log) && StoredIsLast(s)
    ensures s.store.entry.Some? ==> Rev(s) >= 1
  {
  }

  lemma ReadKeeps(cfg: Config, s: State, p: ProcId, ok: bool)
    requires Inv(s) && Enabled(cfg, s, Read(p, ok))
    ensures Inv(DoRead(cfg, s, p, ok))
  {
    hide Counting, NothingMissed;
    StoredRevision(s);
    var t := DoRead(cfg, s, p, ok);
    forall q | 0 <= q < |t.procs| ensures Remembers(t, t.procs[q]) {
      assert Remembers(s, s.procs[q]);
    }
  }

  lemma CommitKeeps(cfg: Config, s: State, p: ProcId)
    requires Inv(s) && AtPc(s, p, Committing) && Matches(s, s.procs[p])
    ensures Inv(DoCompareAndSet(cfg, s, p))
  {
    var x, t := s.procs[p], DoCompareAndSet(cfg, s, p);
    assert Remembers(s, x);
    CommitLogs(s, t.hist.log[|s.hist.log|]);
    forall q | 0 <= q < |t.procs| ensures Remembers(t, t.procs[q]) {
      assert Remembers(s, s.procs[q]);
    }
  }

  lemma CommitLogs(s: State, c: Commit)
    requires Counting(s.hist.log) && NothingMissed(s.hist.log) && StoredIsLast(s)
    requires c.inc == s.store.inc && c.revision == Rev(s) + 1
    requires c.seenInc <= c.inc && c.seenLen <= |s.hist.log| && (c.seenInc == c.inc ==> c.seenLen == |s.hist.log|)
    ensures Counting(s.hist.log + [c]) && NothingMissed(s.hist.log + [c])
  {
  }

  lemma StepKeeps(cfg: Config, s: State, a: Action)
    requires Inv(s) && Enabled(cfg, s, a)
    ensures Inv(Apply(cfg, s, a))
  {
    hide Inv, Matches, DoCompareAndSet, DoRead, Removed;
    var t := Apply(cfg, s, a);
    RemovedKeeps(s);
    OnlyActorMoves(cfg, s, a);
    BaseProcs(cfg, s, a);
    if a.Read? {
      ReadKeeps(cfg, s, a.p, a.ok);
    } else if a.CompareAndSet? && Matches(s, s.procs[a.p]) {
      CommitKeeps(cfg, s, a.p);
    } else if EnvironmentStep(a) {
      QuietEnvironment(cfg, s, a);
      QuietKeeps(Base(cfg, s, a), t, a);
    } else {
      QuietProcess(cfg, s, a);
      QuietKeeps(Base(cfg, s, a), t, a);
    }
  }

  /** The state after the removal a step may begin with. */
  function Base(cfg: Config, s: State, a: Action): State
    requires Enabled(cfg, s, a)
  {
    if a.RemoveEntry? || (a.DeleteTagged? && a.ok && s.env.running[a.id].tag in cfg.tags)
       || (a.DropCorrupt? && a.ok) || (a.PeerDrop? && a.ok)
    then Removed(s) else s
  }

  lemma BaseProcs(cfg: Config, s: State, a: Action)
    requires Enabled(cfg, s, a)
    ensures Base(cfg, s, a).procs == s.procs && (Base(cfg, s, a) == s || Base(cfg, s, a) == Removed(s))
  {
  }

  lemma QuietEnvironment(cfg: Config, s: State, a: Action)
    requires Enabled(cfg, s, a) && EnvironmentStep(a)
    ensures Quiet(Base(cfg, s, a), Apply(cfg, s, a), a)
  {
  }

  lemma QuietProcess(cfg: Config, s: State, a: Action)
    requires Enabled(cfg, s, a) && !EnvironmentStep(a) && !a.Read?
    requires a.CompareAndSet? ==> !Matches(s, s.procs[a.p])
    ensures Quiet(Base(cfg, s, a), Apply(cfg, s, a), a)
  {
    if CallStep(a) { QuietCall(cfg, s, a); }
    else if a.TryLock? || a.LockError? { QuietTryLock(cfg, s, a); }
    else if LockStep(a) { QuietReread(cfg, s, a); }
    else if a.Poll? || a.JudgePoll? { QuietPoll(cfg, s, a); }
    else if WaitStep(a) { QuietPeer(cfg, s, a); }
    else if a.Compute? { QuietCompute(cfg, s, a); }
    else if CheckStep(a) { QuietCheck(cfg, s, a); }
    else { QuietWrite(cfg, s, a); }
  }

  lemma QuietCall(cfg: Config, s: State, a: Action)
    requires Enabled(cfg, s, a) && CallStep(a) && !a.Read?
    ensures Quiet(Base(cfg, s, a), Apply(cfg, s, a), a)
  {
    hide Quiet, Apply, Base;
    if a.Deserialize? { QuietDeserialize(cfg, s, a); }
    else if a.Release? { QuietRelease(cfg, s, a); }
    else { QuietOther(cfg, s, a); }
  }

  lemma QuietDeserialize(cfg: Config, s: State, a: Action)
    requires Enabled(cfg, s, a) && a.Deserialize?
    ensures Quiet(Base(cfg, s, a), Apply(cfg, s, a), a)
  {
  }

  lemma QuietOther(cfg: Config, s: State, a: Action)
    requires Enabled(cfg, s, a) && (a.Judge? || a.DropCorrupt?)
    ensures Quiet(Base(cfg, s, a), Apply(cfg, s, a), a)
  {
  }

  lemma QuietRelease(cfg: Config, s: State, a: Action)
    requires Enabled(cfg, s, a) && a.Release?
    ensures Quiet(Base(cfg, s, a), Apply(cfg, s, a), a)
  {
  }

  lemma QuietTryLock(cfg: Config, s: State, a: Action)
    requires Enabled(cfg, s, a) && (a.TryLock? || a.LockError?)
    ensures Quiet(Base(cfg, s, a), Apply(cfg, s, a), a)
  {
  }

  lemma QuietReread(cfg: Config, s: State, a: Action)
    requires Enabled(cfg, s, a) && (a.Reread? || a.JudgeReread? || a.ReleaseEarly?)
    ensures Quiet(Base(cfg, s, a), Apply(cfg, s, a), a)
  {
  }

  lemma QuietPoll(cfg: Config, s: State, a: Action)
    requires Enabled(cfg, s, a) && (a.Poll? || a.JudgePoll?)
    ensures Quiet(Base(cfg, s, a), Apply(cfg, s, a), a)
  {
  }

  lemma QuietPeer(cfg: Config, s: State, a: Action)
    requires Enabled(cfg, s, a) && (a.PeerDeserialize? || a.PeerDrop?)
    ensures Quiet(Base(cfg, s, a), Apply(cfg, s, a), a)
  {
  }

  lemma QuietCompute(cfg: Config, s: State, a: Action)
    requires Enabled(cfg, s, a) && a.Compute?
    ensures Quiet(Base(cfg, s, a), Apply(cfg, s, a), a)
  {
  }

  lemma QuietCheck(cfg: Config, s: State, a: Action)
    requires Enabled(cfg, s, a) && (a.CheckTag? || a.CheckError? || a.CheckDone?)
    ensures Quiet(Base(cfg, s, a), Apply(cfg, s, a), a)
  {
  }

  lemma QuietWrite(cfg: Config, s: State, a: Action)
    requires Enabled(cfg, s, a) && WriteStep(a)
    requires a.CompareAndSet? ==> !Matches(s, s.procs[a.p])
    ensures Quiet(Base(cfg, s, a), Apply(cfg, s, a), a)
  {
  }

  lemma {:induction false} RunKeeps(cfg: Config, s: State, run: seq<Action>)
    requires Inv(s) && CanRun(cfg, s, run)
    ensures Inv(After(cfg, s, run))
    decreases |run|
  {
    if run != [] {
      StepKeeps(cfg, s, run[0]);
      RunKeeps(cfg, Apply(cfg, s, run[0]), run[1..]);
    }
  }

  lemma {:induction false} Consecutive(log: seq<Commit>, i: nat, j: nat)
    requires Counting(log) && i <= j < |log|
    ensures log[i].inc <= log[j].inc
    ensures log[i].inc == log[j].inc ==> log[j].revision - log[i].revision == j - i
    decreases j
  {
    if i < j { Consecutive(log, i, j - 1); }
  }

  /**
   * In every run, the commits of one incarnation carry the revisions 1, 2, 3, ... in order,
   * so that no revision has two writers, and the stored entry is the newest of them.
   */
  lemma RevisionsCount(cfg: Config, n: nat, run: seq<Action>)
    requires CanRun(cfg, Start(n), run)
    ensures
      var s := After(cfg, Start(n), run);
      var log := s.hist.log;
      && (forall i, j :: 0 <= i < j < |log| && log[i].inc == log[j].inc ==>
            log[j].revision == log[i].revision + (j - i))
      && (forall j :: 0 <= j < |log| && (j == 0 || log[j - 1].inc != log[j].inc) ==> log[j].revision == 1)
      && (s.store.entry.Some? <==> log != [] && log[|log| - 1].inc == s.store.inc)
      && (s.store.entry.Some? ==> log[|log| - 1].revision == Rev(s))
  {
    RunKeeps(cfg, Start(n), run);
    var s := After(cfg, Start(n), run);
    forall i, j | 0 <= i < j < |s.hist.log| && s.hist.log[i].inc == s.hist.log[j].inc
      ensures s.hist.log[j].revision == s.hist.log[i].revision + (j - i)
    {
      Consecutive(s.hist.log, i, j);
    }
  }

  /**
   * What a compare-and-set does. It succeeds exactly when the stored revision, or absence, is the observed one.
   * A success misses commits made since the read exactly when the key was removed since; when the read was
   * blind to an entry, the entry has been removed, and commits were missed at the latest when the key was
   * removed twice. A failure changes nothing.
   */
  predicate Outcome(cfg: Config, s: State, p: ProcId)
    requires AtPc(s, p, Committing)
  {
    var x, t := s.procs[p], Apply(cfg, s, CompareAndSet(p));
    var success := |t.hist.log| > |s.hist.log|;
    && (success <==> if x.seen.observed.None? then s.store.entry.None?
       else s.store.entry.Some? && Rev(s) == x.seen.observed.value)
    && (success ==> Rev(t) == Rev(s) + 1 && x.seen.len <= |s.hist.log|)
    && (success && !Blind(x) ==> (x.seen.len < |s.hist.log| <==> x.seen.inc < s.store.inc))
    && (success && Blind(x) ==>
          x.seen.inc < s.store.inc
          && (x.seen.inc + 1 < s.store.inc ==> x.seen.len < |s.hist.log|))
    && (!success ==> t.store == s.store && t.hist == s.hist)
  }

  lemma OutcomeOf(cfg: Config, s: State, p: ProcId)
    requires Inv(s) && AtPc(s, p, Committing)
    ensures Outcome(cfg, s, p)
  {
    hide Counting, NothingMissed, StoredIsLast;
    StoredRevision(s);
    assert Remembers(s, s.procs[p]);
  }

  lemma StartKeeps(n: nat)
    ensures Inv(Start(n))
  {
  }

  /** In every run, a successful compare-and-set is a lost update exactly when the key was removed since the read. */
  lemma NoLostUpdate(cfg: Config, n: nat, run: seq<Action>, p: ProcId)
    requires CanRun(cfg, Start(n), run)
    requires AtPc(After(cfg, Start(n), run), p, Committing)
    ensures Outcome(cfg, After(cfg, Start(n), run), p)
  {
    hide CanRun, After, Inv, DoCompareAndSet;
    StartKeeps(n);
    RunKeeps(cfg, Start(n), run);
    OutcomeOf(cfg, After(cfg, Start(n), run), p);
  }

  /** Once the key is removed in between, revisions restart and an old observation can match again. */
  lemma RevisionsRestart()
    ensures exists cfg, run ::
      && CanRun(cfg, Start(3), run)
      && var log := After(cfg, Start(3), run).hist.log;
         |log| == 3 && log[2].seenLen == 1 && log[2].seenInc < log[2].inc
  {
    var cfg := Config({}, Some(0), None, None, true, false, false, true, false, 0, true, false, false, true, false);
    var run, s := [], Start(3);
    run, s := Committed(cfg, run, s, 0);
    run, s := Computed(cfg, run, s, 1);
    run, s := Then(cfg, 3, run, s, RemoveEntry);
    run, s := Committed(cfg, run, s, 2);
    run, s := Then(cfg, 3, run, s, CompareAndSet(1));
  }

  /** An idle process reads an absent or expired entry and turns to computing. */
  lemma Missed(cfg: Config, run: seq<Action>, s: State, p: ProcId) returns (run': seq<Action>, s': State)
    requires CanRun(cfg, Start(3), run) && s == After(cfg, Start(3), run) && AtPc(s, p, Idle) && !cfg.locks
    requires s.store.entry.Some? ==> FreshnessOf(s.store.entry.value, s.clock) == Expired
    ensures CanRun(cfg, Start(3), run') && s' == After(cfg, Start(3), run')
    ensures AtPc(s', p, Computing) && s'.store == s.store && s'.hist == s.hist && s'.clock == s.clock
    ensures s'.procs == s.procs[p := s'.procs[p]]
    ensures s'.procs[p].seen.observed == (if s.store.entry.Some? then Some(s.store.entry.value.revision) else None)
    ensures s'.procs[p].seen.inc == s.store.inc && s'.procs[p].seen.len == |s.hist.log|
  {
    run', s' := Then(cfg, 3, run, s, Read(p, true));
    run', s' := Then(cfg, 3, run', s', Judge(p));
  }

  /** An idle process reads an absent or expired entry and produces a value, ready to write it. */
  lemma Computed(cfg: Config, run: seq<Action>, s: State, p: ProcId) returns (run': seq<Action>, s': State)
    requires CanRun(cfg, Start(3), run) && s == After(cfg, Start(3), run) && AtPc(s, p, Idle)
    requires !cfg.locks && !cfg.strict
    requires s.store.entry.Some? ==> FreshnessOf(s.store.entry.value, s.clock) == Expired
    ensures CanRun(cfg, Start(3), run') && s' == After(cfg, Start(3), run')
    ensures AtPc(s', p, Committing) && s'.store == s.store && s'.hist == s.hist && s'.clock == s.clock
    ensures s'.procs == s.procs[p := s'.procs[p]]
    ensures s'.procs[p].seen.observed == (if s.store.entry.Some? then Some(s.store.entry.value.revision) else None)
    ensures s'.procs[p].seen.inc == s.store.inc && s'.procs[p].seen.len == |s.hist.log|
    ensures s'.procs[p].job.state == ValueState && s'.procs[p].job.now == s.clock
  {
    run', s' := Missed(cfg, run, s, p);
    run', s' := Then(cfg, 3, run', s', Compute(p, Produced(0), false));
  }

  lemma Committed(cfg: Config, run: seq<Action>, s: State, p: ProcId) returns (run': seq<Action>, s': State)
    requires CanRun(cfg, Start(3), run) && s == After(cfg, Start(3), run) && AtPc(s, p, Idle)
    requires !cfg.locks && !cfg.strict && cfg.ttlMs == Some(0) && cfg.staleTtlMs.None? && s.store.entry.None?
    ensures CanRun(cfg, Start(3), run') && s' == After(cfg, Start(3), run')
    ensures s'.store.entry.Some? && Rev(s') == 1 && s'.store.inc == s.store.inc && s'.clock == s.clock
    ensures FreshnessOf(s'.store.entry.value, s'.clock) == Expired
    ensures |s'.hist.log| == |s.hist.log| + 1 && |s'.procs| == |s.procs|
    ensures forall q :: 0 <= q < |s.procs| && q != p ==> s'.procs[q] == s.procs[q]
  {
    run', s' := Computed(cfg, run, s, p);
    run', s' := Then(cfg, 3, run', s', CompareAndSet(p));
  }
}
