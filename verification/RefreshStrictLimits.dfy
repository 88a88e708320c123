/**
 * What strict invalidation does not cover: exactly when a check lets an old value through, and for which
 * configurations some run does.
 */
module RefreshStrictLimits {
  import opened Wrappers
  import opened Refresh
  import opened RefreshStrict

  // ----- One check, undisturbed

  /** What reading the tombstone of a tag gives. */
  function TombRead(cfg: Config, s: State, t: Tag): Option<int> {
    if cfg.findsTombstones && t in s.store.tombs then Some(s.store.tombs[t]) else None
  }

  /** No tombstone that the check can find is at or after the start of the computation. */
  predicate NoneRefuses(cfg: Config, s: State, startedAt: int) {
    forall t :: t in cfg.tags && TombRead(cfg, s, t).Some? ==> TombRead(cfg, s, t).value < startedAt
  }

  /** Nothing a check looks at has changed. */
  predicate Undisturbed(s: State, r: State) {
    r.clock == s.clock && r.store.entry == s.store.entry && r.store.tombs == s.store.tombs
    && r.hist.log == s.hist.log && r.hist.latest == s.hist.latest && r.env == s.env
  }

  /** What a process has read is what there is to read. */
  predicate Exact(cfg: Config, s: State, x: Proc) {
    (forall t :: t in x.job.read ==> x.job.read[t] == TombRead(cfg, s, t))
    && x.job.vetted.Keys == x.job.read.Keys * s.hist.latest.Keys
    && (forall t :: t in x.job.vetted ==> x.job.vetted[t] == s.hist.latest[t])
  }

  /** Steps of the check of one process and its compare-and-set. */
  predicate OwnCheck(run: seq<Action>, p: ProcId) {
    forall i :: 0 <= i < |run| ==> (run[i].CheckTag? || run[i].CheckDone? || run[i].CompareAndSet?) && run[i].p == p
  }

  /** The next commit is older than an invalidation whose tombstone was stored before its check. */
  predicate LetsThrough(s: State, r: State, t: Tag) {
    |r.hist.log| == |s.hist.log| + 1 &&
    var c := r.hist.log[|s.hist.log|];
    t in c.vetted && c.startedAt <= c.vetted[t]
  }

  /** The invalidation has happened, no tombstone in place refuses the write, and the revision still matches. */
  predicate Slips(cfg: Config, s: State, p: ProcId, t: Tag)
    requires p < |s.procs|
  {
    t in s.hist.latest && s.procs[p].startedAt <= s.hist.latest[t] && NoneRefuses(cfg, s, s.procs[p].startedAt)
    && Matches(s, s.procs[p])
  }

  lemma TagRead(cfg: Config, s: State, p: ProcId, t: Tag)
    requires Enabled(cfg, s, CheckTag(p, t)) && Exact(cfg, s, s.procs[p])
    ensures var r := Apply(cfg, s, CheckTag(p, t));
            Undisturbed(s, r) && r.store == s.store && AtPc(r, p, Checking) && Exact(cfg, r, r.procs[p])
            && r.procs[p].job.read.Keys == s.procs[p].job.read.Keys + {t}
            && r.procs[p].startedAt == s.procs[p].startedAt && r.procs[p].seen == s.procs[p].seen
  {
  }

  /** The rest of a check that finds nothing to refuse the write. */
  lemma {:induction false} CheckRest(cfg: Config, s0: State, run: seq<Action>, s: State, p: ProcId, left: set<Tag>)
    returns (run': seq<Action>, s': State)
    requires CanRun(cfg, s0, run) && s == After(cfg, s0, run) && OwnCheck(run, p)
    requires AtPc(s, p, Checking) && Exact(cfg, s, s.procs[p]) && NoneRefuses(cfg, s, s.procs[p].startedAt)
    requires left <= cfg.tags && s.procs[p].job.read.Keys == cfg.tags - left
    ensures CanRun(cfg, s0, run') && s' == After(cfg, s0, run') && OwnCheck(run', p)
    ensures AtPc(s', p, Committing) && Undisturbed(s, s') && s'.store == s.store
    ensures Exact(cfg, s', s'.procs[p]) && s'.procs[p].job.read.Keys == cfg.tags
    ensures s'.procs[p].startedAt == s.procs[p].startedAt && s'.procs[p].seen == s.procs[p].seen
    decreases left
  {
    hide Apply, CanRun, After;
    if left == {} {
      CheckedNext(cfg, s, p);
      run', s' := Onward(cfg, s0, run, s, CheckDone(p));
    } else {
      var t :| t in left;
      TagRead(cfg, s, p, t);
      run', s' := Onward(cfg, s0, run, s, CheckTag(p, t));
      run', s' := CheckRest(cfg, s0, run', s', p, left - {t});
    }
  }

  lemma CheckedNext(cfg: Config, s: State, p: ProcId)
    requires AtPc(s, p, Checking) && Exact(cfg, s, s.procs[p]) && s.procs[p].job.read.Keys == cfg.tags
    requires NoneRefuses(cfg, s, s.procs[p].startedAt)
    ensures Enabled(cfg, s, CheckDone(p))
    ensures var r := Apply(cfg, s, CheckDone(p));
            AtPc(r, p, Committing) && Undisturbed(s, r) && r.store == s.store
                && r.procs[p] == s.procs[p].(pc := Committing)
  {
  }

  /** A process at its compare-and-set commits what it has vetted. */
  lemma CommitNext(cfg: Config, s: State, p: ProcId)
    requires AtPc(s, p, Committing) && Matches(s, s.procs[p])
    ensures var r := Apply(cfg, s, CompareAndSet(p));
            |r.hist.log| == |s.hist.log| + 1 && r.env == s.env && r.hist.latest == s.hist.latest && r.store.entry.Some?
            && var c := r.hist.log[|s.hist.log|];
               c.startedAt == s.procs[p].startedAt == r.store.entry.value.startedAt && c.vetted == s.procs[p].job.vetted
  {
  }

  /** The way through. */
  lemma SlipThrough(cfg: Config, s: State, p: ProcId, t: Tag) returns (run: seq<Action>)
    requires AtPc(s, p, Checking) && s.procs[p].job.read == map[] && s.procs[p].job.vetted == map[] && t in cfg.tags
    requires Slips(cfg, s, p, t)
    ensures OwnCheck(run, p) && CanRun(cfg, s, run) && LetsThrough(s, After(cfg, s, run), t)
            && After(cfg, s, run).env == s.env
  {
    hide Apply;
    var r: State;
    run, r := CheckRest(cfg, s, [], s, p, cfg.tags);
    CommitNext(cfg, r, p);
    run, r := Onward(cfg, s, run, r, CompareAndSet(p));
  }

  /** What can be said at every point of an undisturbed check. */
  predicate OnTrack(cfg: Config, s: State, r: State, p: ProcId, t: Tag)
    requires p < |s.procs|
  {
    p < |r.procs| && r.store.tombs == s.store.tombs && r.hist.latest == s.hist.latest &&
    var x, y := s.procs[p], r.procs[p];
    y.startedAt == x.startedAt && y.seen == x.seen &&
    if |r.hist.log| > |s.hist.log| then y.pc == Releasing && (LetsThrough(s, r, t) ==> Slips(cfg, s, p, t))
    else
      r.hist.log == s.hist.log && r.store.entry == s.store.entry
      && (y.pc == Releasing || ((y.pc == Checking || y.pc == Committing) && Exact(cfg, s, y)))
      && (y.pc == Committing ==> NoneRefuses(cfg, s, x.startedAt))
  }

  lemma TrackStep(cfg: Config, s: State, r: State, p: ProcId, t: Tag, a: Action)
    requires p < |s.procs| && OnTrack(cfg, s, r, p, t) && Enabled(cfg, r, a) && OwnCheck([a], p)
    ensures OnTrack(cfg, s, Apply(cfg, r, a), p, t)
  {
    assert [a][0] == a;
    if a.CheckTag? { TrackTag(cfg, s, r, p, t, a); }
    else if a.CheckDone? { TrackDone(cfg, s, r, p, t, a); }
    else { TrackCommit(cfg, s, r, p, t, a); }
  }

  lemma TrackTag(cfg: Config, s: State, r: State, p: ProcId, t: Tag, a: Action)
    requires p < |s.procs| && OnTrack(cfg, s, r, p, t) && Enabled(cfg, r, a) && a.CheckTag? && a.p == p
    ensures OnTrack(cfg, s, Apply(cfg, r, a), p, t)
  {
    hide Slips, LetsThrough, NoneRefuses;
  }

  lemma TrackDone(cfg: Config, s: State, r: State, p: ProcId, t: Tag, a: Action)
    requires p < |s.procs| && OnTrack(cfg, s, r, p, t) && Enabled(cfg, r, a) && a.CheckDone? && a.p == p
    ensures OnTrack(cfg, s, Apply(cfg, r, a), p, t)
  {
    hide Slips, LetsThrough;
    var x := r.procs[p];
    if !Refused(x) {
      forall u | u in cfg.tags && TombRead(cfg, s, u).Some? ensures TombRead(cfg, s, u).value < x.startedAt {
        assert x.job.read[u] == TombRead(cfg, s, u);
      }
    }
  }

  lemma TrackCommit(cfg: Config, s: State, r: State, p: ProcId, t: Tag, a: Action)
    requires p < |s.procs| && OnTrack(cfg, s, r, p, t) && Enabled(cfg, r, a) && a.CompareAndSet? && a.p == p
    ensures OnTrack(cfg, s, Apply(cfg, r, a), p, t)
  {
    hide NoneRefuses;
  }

  lemma {:induction false} TrackRun(cfg: Config, s: State, r: State, p: ProcId, t: Tag, run: seq<Action>)
    requires p < |s.procs| && OnTrack(cfg, s, r, p, t) && OwnCheck(run, p) && CanRun(cfg, r, run)
    ensures OnTrack(cfg, s, After(cfg, r, run), p, t)
    decreases |run|
  {
    hide Apply, OnTrack;
    if run != [] {
      assert OwnCheck([run[0]], p);
      TrackStep(cfg, s, r, p, t, run[0]);
      TrackRun(cfg, s, Apply(cfg, r, run[0]), p, t, run[1..]);
    }
  }

  /**
   * A process about to check its tombstones can, undisturbed, commit a value older than the latest invalidation
   * of a tag exactly when no tombstone it finds is as new as its start, though the invalidation is, and its
   * revision still matches.
   */
  lemma LetsThroughIff(cfg: Config, s: State, p: ProcId, t: Tag)
    requires AtPc(s, p, Checking) && s.procs[p].job.read == map[] && s.procs[p].job.vetted == map[] && t in cfg.tags
    ensures (exists run :: OwnCheck(run, p) && CanRun(cfg, s, run) && LetsThrough(s, After(cfg, s, run), t))
            <==> Slips(cfg, s, p, t)
  {
    if Slips(cfg, s, p, t) {
      var run := SlipThrough(cfg, s, p, t);
      assert OwnCheck(run, p) && CanRun(cfg, s, run) && LetsThrough(s, After(cfg, s, run), t);
    }
    forall run | OwnCheck(run, p) && CanRun(cfg, s, run) && LetsThrough(s, After(cfg, s, run), t)
      ensures Slips(cfg, s, p, t)
    {
      hide Apply, CanRun, After, Slips;
      TrackStart(cfg, s, p, t);
      TrackRun(cfg, s, s, p, t, run);
    }
  }

  lemma TrackStart(cfg: Config, s: State, p: ProcId, t: Tag)
    requires AtPc(s, p, Checking) && s.procs[p].job.read == map[] && s.procs[p].job.vetted == map[]
    ensures OnTrack(cfg, s, s, p, t)
  {
  }

  /**
   * In a run of a function that finds tombstones this takes one of the tag that is missing or older than the
   * latest invalidation, and so an overlap or a tombstone lost by the storage.
   */
  lemma SlipsOnlyIrregular(cfg: Config, n: nat, run: seq<Action>, p: ProcId, t: Tag)
    requires cfg.findsTombstones && CanRun(cfg, Start(n), run) && p < |After(cfg, Start(n), run).procs| && t in cfg.tags
    requires Slips(cfg, After(cfg, Start(n), run), p, t)
    ensures var s := After(cfg, Start(n), run);
            (t !in s.store.tombs || s.store.tombs[t] < s.procs[p].startedAt <= s.hist.latest[t])
            && (t in s.env.overlapped || t in s.env.dropped)
  {
    hide RunningIsLast, LogVetted, Newest, CanRun, After;
    StartKeeps(cfg, n);
    RunKeeps(cfg, Start(n), run);
    var s := After(cfg, Start(n), run);
    assert t in s.store.tombs ==> TombRead(cfg, s, t) == Some(s.store.tombs[t]);
  }

  // ----- Configurations

  /** Every vetted commit is younger than the invalidations it should have seen. */
  predicate Protected(s: State) {
    forall i, t :: 0 <= i < |s.hist.log| && t in s.hist.log[i].vetted && Regular(s.env, t)
      ==> s.hist.log[i].startedAt > s.hist.log[i].vetted[t]
  }

  /** Nobody has used the lock. */
  predicate LockFree(s: State) {
    s.store.lock.None? && s.hist.used == {}
  }

  /** Process 0 misses and computes a value, under a lock where these are on, and is about to check its tombstones. */
  lemma MissAndCompute(cfg: Config, run: seq<Action>, s: State) returns (run': seq<Action>, s': State)
    requires CanRun(cfg, Start(1), run) && s == After(cfg, Start(1), run)
    requires AtPc(s, 0, Idle) && s.store.entry.None? && LockFree(s) && cfg.strict && cfg.tags != {}
    ensures CanRun(cfg, Start(1), run') && s' == After(cfg, Start(1), run')
    ensures AtPc(s', 0, Checking) && Undisturbed(s, s')
    ensures s'.procs[0].startedAt == s.clock && s'.procs[0].seen.observed == None
    ensures s'.procs[0].job.read == map[] && s'.procs[0].job.vetted == map[]
  {
    run', s' := MissAndLock(cfg, run, s);
    ComputeNext(cfg, s');
    run', s' := Then(cfg, 1, run', s', Compute(0, Produced(7), false));
  }

  lemma Miss(cfg: Config, run: seq<Action>, s: State) returns (run': seq<Action>, s': State)
    requires CanRun(cfg, Start(1), run) && s == After(cfg, Start(1), run)
    requires AtPc(s, 0, Idle) && s.store.entry.None?
    ensures CanRun(cfg, Start(1), run') && s' == After(cfg, Start(1), run')
    ensures AtPc(s', 0, if cfg.locks then Locking else Computing) && Undisturbed(s, s')
    ensures s'.store == s.store && s'.hist == s.hist
    ensures s'.procs[0].startedAt == s.clock && s'.procs[0].seen.observed == None
  {
    run', s' := Then(cfg, 1, run, s, Read(0, true));
    run', s' := Then(cfg, 1, run', s', Judge(0));
  }

  lemma TakeLock(cfg: Config, run: seq<Action>, s: State) returns (run': seq<Action>, s': State)
    requires CanRun(cfg, Start(1), run) && s == After(cfg, Start(1), run)
    requires AtPc(s, 0, Locking) && s.store.entry.None? && LockFree(s)
    ensures CanRun(cfg, Start(1), run') && s' == After(cfg, Start(1), run')
    ensures AtPc(s', 0, Computing) && Undisturbed(s, s')
    ensures s'.procs[0].startedAt == s.procs[0].startedAt && s'.procs[0].seen == s.procs[0].seen
  {
    hide CanRun, After, Start;
    run', s' := Then(cfg, 1, run, s, TryLock(0, 0));
    run', s' := Then(cfg, 1, run', s', Reread(0, true));
    run', s' := Then(cfg, 1, run', s', JudgeReread(0));
  }

  lemma MissAndLock(cfg: Config, run: seq<Action>, s: State) returns (run': seq<Action>, s': State)
    requires CanRun(cfg, Start(1), run) && s == After(cfg, Start(1), run)
    requires AtPc(s, 0, Idle) && s.store.entry.None? && LockFree(s)
    ensures CanRun(cfg, Start(1), run') && s' == After(cfg, Start(1), run')
    ensures AtPc(s', 0, Computing) && Undisturbed(s, s')
    ensures s'.procs[0].startedAt == s.clock && s'.procs[0].seen.observed == None
  {
    hide CanRun, After, Start;
    run', s' := Miss(cfg, run, s);
    if cfg.locks { run', s' := TakeLock(cfg, run', s'); }
  }

  lemma Begun(cfg: Config, run: seq<Action>, s: State, id: nat, t: Tag) returns (run': seq<Action>, s': State)
    requires CanRun(cfg, Start(1), run) && s == After(cfg, Start(1), run) && id !in s.env.running
    ensures CanRun(cfg, Start(1), run') && s' == After(cfg, Start(1), run')
    ensures s' == s.(env := s'.env) && s'.env.dropped == s.env.dropped
    ensures s'.env.running == s.env.running[id := Invalidation(t, s.clock, false)]
    ensures s'.env.overlapped == if exists i :: i in s.env.running && s.env.running[i].tag == t
            then s.env.overlapped + {t} else s.env.overlapped
  {
    run', s' := Then(cfg, 1, run, s, BeginInvalidation(id, t));
  }

  lemma Later(cfg: Config, run: seq<Action>, s: State, dt: nat) returns (run': seq<Action>, s': State)
    requires CanRun(cfg, Start(1), run) && s == After(cfg, Start(1), run)
    ensures CanRun(cfg, Start(1), run') && s' == After(cfg, Start(1), run') && s' == s.(clock := s.clock + dt)
  {
    run', s' := Then(cfg, 1, run, s, Tick(dt));
  }

  lemma ComputeNext(cfg: Config, s: State)
    requires AtPc(s, 0, Computing) && cfg.strict && cfg.tags != {}
    ensures var r := Apply(cfg, s, Compute(0, Produced(7), false));
            AtPc(r, 0, Checking) && Undisturbed(s, r) && r.procs[0].startedAt == s.procs[0].startedAt
                && r.procs[0].seen == s.procs[0].seen
            && r.procs[0].job.read == map[] && r.procs[0].job.vetted == map[]
  {
  }

  /** A running invalidation deletes and stores its tombstone. */
  lemma Complete(cfg: Config, run: seq<Action>, s: State, id: nat) returns (run': seq<Action>, s': State)
    requires CanRun(cfg, Start(1), run) && s == After(cfg, Start(1), run)
    requires id in s.env.running && !s.env.running[id].deleted && s.store.entry.None?
    ensures CanRun(cfg, Start(1), run') && s' == After(cfg, Start(1), run')
    ensures s'.procs == s.procs && s'.store.entry.None? && s'.clock == s.clock && s'.hist.log == s.hist.log
    ensures s'.env == s.env.(running := s.env.running - {id})
    ensures var v := s.env.running[id];
      && s'.store.tombs == s.store.tombs[v.tag := v.at]
      && s'.hist.latest == s.hist.latest[v.tag :=
           if v.tag in s.hist.latest && s.hist.latest[v.tag] > v.at then s.hist.latest[v.tag] else v.at]
  {
    run', s' := Then(cfg, 1, run, s, DeleteTagged(id, true));
    run', s' := Then(cfg, 1, run', s', StoreTombstone(id, true));
    assert s.env.running[id := s.env.running[id].(deleted := true)] - {id} == s.env.running - {id};
  }

  lemma CheckAndCommit(cfg: Config, run: seq<Action>, s: State, t: Tag) returns (run': seq<Action>, s': State)
    requires CanRun(cfg, Start(1), run) && s == After(cfg, Start(1), run)
    requires AtPc(s, 0, Checking) && s.procs[0].job.read == map[] && s.procs[0].job.vetted == map[] && t in cfg.tags
    requires Slips(cfg, s, 0, t)
    ensures CanRun(cfg, Start(1), run') && s' == After(cfg, Start(1), run') && LetsThrough(s, s', t) && s'.env == s.env
  {
    var own := SlipThrough(cfg, s, 0, t);
    Continue(cfg, Start(1), run, own);
    run', s' := run + own, After(cfg, s, own);
  }

  /**
   * For every strict function that looks for tombstones elsewhere and every tag of it: an old value is committed
   * after a regular invalidation.
   */
  lemma ElsewhereIsNotProtected(cfg: Config, t: Tag)
    requires cfg.strict && !cfg.findsTombstones && t in cfg.tags
    ensures exists run ::
      && CanRun(cfg, Start(1), run)
      && var s := After(cfg, Start(1), run);
         s.env.overlapped == {} && s.env.dropped == {} && LetsThrough(Start(1), s, t)
  {
    var run, s := [], Start(1);
    run, s := MissAndCompute(cfg, run, s);
    run, s := Begun(cfg, run, s, 0, t);
    run, s := Complete(cfg, run, s, 0);
    run, s := CheckAndCommit(cfg, run, s, t);
  }

  /**
   * Strict invalidation keeps its promise in every run, for any number of processes, exactly when the function
   * finds its tombstones.
   */
  lemma ProtectedIffFinds(cfg: Config)
    requires cfg.strict && cfg.tags != {}
    ensures (forall n: nat, run :: CanRun(cfg, Start(n), run) ==> Protected(After(cfg, Start(n), run)))
            <==> cfg.findsTombstones
  {
    hide CanRun, After;
    if cfg.findsTombstones {
      forall n: nat, run | CanRun(cfg, Start(n), run) ensures Protected(After(cfg, Start(n), run)) {
        StrictInvalidation(cfg, n, run);
      }
    } else {
      var t :| t in cfg.tags;
      ElsewhereIsNotProtected(cfg, t);
      var run :| CanRun(cfg, Start(1), run) && LetsThrough(Start(1), After(cfg, Start(1), run), t)
        && After(cfg, Start(1), run).env.overlapped == {} && After(cfg, Start(1), run).env.dropped == {};
      assert !Protected(After(cfg, Start(1), run)) by {
        var s := After(cfg, Start(1), run);
        assert t in s.hist.log[0].vetted && Regular(s.env, t);
      }
    }
  }

  /**
   * For every strict function that finds its tombstones and every tag of it: overlapping invalidations can store
   * the older time last, and a value older than the newer invalidation is committed.
   */
  lemma OverlapLetsStaleDataThrough(cfg: Config, t: Tag)
    requires cfg.strict && cfg.findsTombstones && t in cfg.tags
    ensures exists run ::
      && CanRun(cfg, Start(1), run)
      && var s := After(cfg, Start(1), run);
         s.env.overlapped == {t} && s.env.dropped == {} && LetsThrough(Start(1), s, t)
  {
    hide Apply, Slips;
    var run, s := Overlapping(cfg, t);
    run, s := Complete(cfg, run, s, 1);
    run, s := Complete(cfg, run, s, 0);
    OlderInPlace(cfg, s, t);
    run, s := CheckAndCommit(cfg, run, s, t);
  }

  /** A value is computed between the starts of two invalidations of a tag. */
  lemma Overlapping(cfg: Config, t: Tag) returns (run: seq<Action>, s: State)
    requires cfg.strict && t in cfg.tags
    ensures CanRun(cfg, Start(1), run) && s == After(cfg, Start(1), run) && AtPc(s, 0, Checking)
    ensures s.env.running == map[0 := Invalidation(t, 0, false), 1 := Invalidation(t, 10, false)]
    ensures s.env.overlapped == {t} && s.env.dropped == {}
    ensures s.procs[0].startedAt == 5 && s.procs[0].seen.observed == None
    ensures s.procs[0].job.read == map[] && s.procs[0].job.vetted == map[]
    ensures s.store.entry == None && s.store.tombs == map[] && s.hist.latest == map[] && s.hist.log == []
  {
    hide Apply, CanRun, After;
    run, s := Beginning(cfg);
    run, s := Begun(cfg, run, s, 0, t);
    run, s := Later(cfg, run, s, 5);
    run, s := MissAndCompute(cfg, run, s);
    run, s := Later(cfg, run, s, 5);
    assert 0 in s.env.running && s.env.running[0].tag == t;
    run, s := Begun(cfg, run, s, 1, t);
  }

  lemma Beginning(cfg: Config) returns (run: seq<Action>, s: State)
    ensures CanRun(cfg, Start(1), run) && s == After(cfg, Start(1), run) == Start(1)
  {
    run, s := [], Start(1);
  }

  lemma OwnStart(cfg: Config, s: State)
    ensures CanRun(cfg, s, []) && After(cfg, s, []) == s && OwnCheck([], 0)
  {
  }

  lemma OlderInPlace(cfg: Config, s: State, t: Tag)
    requires |s.procs| > 0 && s.store.tombs == map[t := 10][t := 0] && s.hist.latest == map[t := 10]
    requires s.procs[0].startedAt == 5 && s.store.entry.None? && s.procs[0].seen.observed.None?
    ensures Slips(cfg, s, 0, t)
  {
  }

  /**
   * For every strict function that finds its tombstones and every tag of it: a write that checked just before a
   * tombstone was stored survives the completed, regular invalidation with a value computed before it.
   */
  lemma CheckedTooEarly(cfg: Config, t: Tag)
    requires cfg.strict && cfg.findsTombstones && t in cfg.tags
    ensures exists run ::
      && CanRun(cfg, Start(1), run)
      && var s := After(cfg, Start(1), run);
         && s.env.running == map[] && s.env.overlapped == {} && s.env.dropped == {}
         && s.store.entry.Some? && t in s.hist.latest && s.store.entry.value.startedAt <= s.hist.latest[t]
  {
    hide Apply;
    var run, s := CheckedFirst(cfg, t);
    run, s := Complete(cfg, run, s, 0);
    CommitNext(cfg, s, 0);
    run, s := Then(cfg, 1, run, s, CompareAndSet(0));
  }

  /** Process 0 has checked its tags when an invalidation begins. */
  lemma CheckedFirst(cfg: Config, t: Tag) returns (run: seq<Action>, s: State)
    requires cfg.strict && t in cfg.tags
    ensures CanRun(cfg, Start(1), run) && s == After(cfg, Start(1), run) && AtPc(s, 0, Committing)
            && Matches(s, s.procs[0])
    ensures s.procs[0].startedAt == s.clock == 0 && s.store.entry.None?
    ensures s.env.running == map[0 := Invalidation(t, 0, false)] && s.env.overlapped == {} && s.env.dropped == {}
  {
    hide Apply, Slips, CanRun, After;
    run, s := Beginning(cfg);
    run, s := MissAndCompute(cfg, run, s);
    OwnStart(cfg, s);
    var own, r := CheckRest(cfg, s, [], s, 0, cfg.tags);
    Continue(cfg, Start(1), run, own);
    run, s := run + own, r;
    run, s := Begun(cfg, run, s, 0, t);
  }
}
