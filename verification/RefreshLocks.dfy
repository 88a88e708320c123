/** The distributed lock around the computation: exclusion, and release of every acquired lock. */
module RefreshLocks {
  import opened Wrappers
  import opened Refresh

  predicate Working(x: Proc) {
    x.pc == Computing || x.pc == Checking || x.pc == Committing || x.pc == Releasing
  }

  /** Why a process holds a token, or computes without one. */
  predicate Shape(cfg: Config, x: Proc) {
    && (x.pc == Rereading || x.pc == JudgingReread || x.pc == ReleasingEarly ==> x.lease.token.Some?)
    && (x.lease.token.Some? ==>
          (x.pc == Rereading || x.pc == JudgingReread || x.pc == ReleasingEarly || Working(x))
          && x.lease.reason == ByLock)
    && (Working(x) && x.lease.token.None? ==> x.lease.reason != ByLock && (cfg.locks ==> x.lease.reason != LocksOff))
    && (Working(x) && x.lease.reason == WaitTimeout ==> cfg.proceedOnTimeout)
    && (x.pc == Locking || x.pc == Rereading || x.pc == JudgingReread || x.pc == Polling || x.pc == JudgingPoll
       ==> cfg.locks)
  }

  // ----- What one step does to the lock

  predicate Keeps(s: State, t: State, x: Proc, y: Proc) {
    && y.lease.token == x.lease.token && (x.lease.token.Some? ==> y.lease.end == x.lease.end)
    && t.store.lock == s.store.lock
    && t.hist.used == s.hist.used && t.hist.released == s.hist.released && t.hist.leaked == s.hist.leaked
  }

  predicate Acquires(s: State, t: State, x: Proc, y: Proc) {
    && x.lease.token.None? && y.lease.token.Some? && y.lease.token.value !in s.hist.used
    && (s.store.lock.Some? ==> s.clock >= s.store.lock.value.expiresAt)
    && t.store.lock == Some(Lock(y.lease.token.value, y.lease.end))
    && t.hist.used == s.hist.used + {y.lease.token.value}
    && t.hist.released == s.hist.released && t.hist.leaked == s.hist.leaked
  }

  predicate Releases(s: State, t: State, x: Proc, y: Proc) {
    && x.lease.token.Some? && y.lease.token.None?
    && (t.store.lock == s.store.lock
        || (s.store.lock.Some? && s.store.lock.value.token == x.lease.token.value && t.store.lock.None?))
    && t.hist.used == s.hist.used && t.hist.leaked == s.hist.leaked
    && t.hist.released == s.hist.released + multiset{x.lease.token.value}
  }

  predicate Leaks(cfg: Config, s: State, t: State, x: Proc, y: Proc) {
    && !cfg.failOpenReads && x.lease.token.Some? && y.lease.token.None?
    && t.store.lock == s.store.lock
    && t.hist.used == s.hist.used && t.hist.released == s.hist.released
    && t.hist.leaked == s.hist.leaked + {x.lease.token.value}
  }

  predicate LockEffect(cfg: Config, s: State, t: State, p: ProcId) {
    && p < |s.procs| == |t.procs| && t.clock == s.clock && t.env == s.env
    && Shape(cfg, t.procs[p])
    && (|| Keeps(s, t, s.procs[p], t.procs[p])
        || (cfg.locks && Acquires(s, t, s.procs[p], t.procs[p]))
        || Releases(s, t, s.procs[p], t.procs[p])
        || Leaks(cfg, s, t, s.procs[p], t.procs[p]))
  }

  lemma ReadEffect(cfg: Config, s: State, a: Action)
    requires Enabled(cfg, s, a) && (a.Read? || a.Judge? || a.DropCorrupt?) && Shape(cfg, s.procs[a.p])
    ensures LockEffect(cfg, s, Apply(cfg, s, a), a.p)
  {
  }

  lemma DeserializeEffect(cfg: Config, s: State, a: Action)
    requires Enabled(cfg, s, a) && a.Deserialize? && Shape(cfg, s.procs[a.p])
    ensures LockEffect(cfg, s, Apply(cfg, s, a), a.p)
  {
  }

  lemma ReleaseEffect(cfg: Config, s: State, a: Action)
    requires Enabled(cfg, s, a) && (a.Release? || a.ReleaseEarly?) && Shape(cfg, s.procs[a.p])
    ensures LockEffect(cfg, s, Apply(cfg, s, a), a.p)
    ensures s.procs[a.p].lease.token.Some? ==> Releases(s, Apply(cfg, s, a), s.procs[a.p], Apply(cfg, s, a).procs[a.p])
  {
    hide Apply, LockEffect, Shape;
    if a.Release? { LateReleaseEffect(cfg, s, a); } else { EarlyReleaseEffect(cfg, s, a); }
  }

  lemma LateReleaseEffect(cfg: Config, s: State, a: Action)
    requires Enabled(cfg, s, a) && a.Release? && Shape(cfg, s.procs[a.p])
    ensures LockEffect(cfg, s, Apply(cfg, s, a), a.p)
    ensures s.procs[a.p].lease.token.Some? ==> Releases(s, Apply(cfg, s, a), s.procs[a.p], Apply(cfg, s, a).procs[a.p])
  {
    hide LockEffect, Shape, DoRelease, Releases;
    assert Apply(cfg, s, a) == DoRelease(s, a.p, a.ok);
    ReleasedEffect(cfg, s, a.p, a.ok);
  }

  lemma ReleasedEffect(cfg: Config, s: State, p: ProcId, ok: bool)
    requires AtPc(s, p, Releasing) && Shape(cfg, s.procs[p])
    ensures LockEffect(cfg, s, DoRelease(s, p, ok), p)
    ensures s.procs[p].lease.token.Some? ==> Releases(s, DoRelease(s, p, ok), s.procs[p], DoRelease(s, p, ok).procs[p])
  {
    hide Acquires, Leaks;
  }

  lemma EarlyReleaseEffect(cfg: Config, s: State, a: Action)
    requires Enabled(cfg, s, a) && a.ReleaseEarly? && Shape(cfg, s.procs[a.p])
    ensures LockEffect(cfg, s, Apply(cfg, s, a), a.p)
    ensures Releases(s, Apply(cfg, s, a), s.procs[a.p], Apply(cfg, s, a).procs[a.p])
  {
  }

  lemma AcquireEffect(cfg: Config, s: State, a: Action)
    requires Enabled(cfg, s, a) && a.TryLock? && Shape(cfg, s.procs[a.p])
    ensures LockEffect(cfg, s, Apply(cfg, s, a), a.p)
  {
    hide LockEffect, Shape, DoTryLock;
    assert Apply(cfg, s, a) == DoTryLock(cfg, s, a.p, a.token);
    if s.store.lock.Some? && s.clock < s.store.lock.value.expiresAt {
      TryLockFails(cfg, s, a.p, a.token);
    } else {
      TryLockSucceeds(cfg, s, a.p, a.token);
    }
  }

  lemma TryLockFails(cfg: Config, s: State, p: ProcId, token: Token)
    requires AtPc(s, p, Locking) && Shape(cfg, s.procs[p]) && s.store.lock.Some?
             && s.clock < s.store.lock.value.expiresAt
    ensures LockEffect(cfg, s, DoTryLock(cfg, s, p, token), p)
  {
    hide Acquires, Releases, Leaks;
  }

  lemma TryLockSucceeds(cfg: Config, s: State, p: ProcId, token: Token)
    requires AtPc(s, p, Locking) && Shape(cfg, s.procs[p]) && token !in s.hist.used
    requires s.store.lock.Some? ==> s.clock >= s.store.lock.value.expiresAt
    ensures LockEffect(cfg, s, DoTryLock(cfg, s, p, token), p)
  {
    hide Keeps, Releases, Leaks;
  }

  lemma LockErrorEffect(cfg: Config, s: State, a: Action)
    requires Enabled(cfg, s, a) && a.LockError? && Shape(cfg, s.procs[a.p])
    ensures LockEffect(cfg, s, Apply(cfg, s, a), a.p)
  {
    assert Apply(cfg, s, a) == DoLockError(s, a.p);
  }

  lemma RereadEffect(cfg: Config, s: State, a: Action)
    requires Enabled(cfg, s, a) && (a.Reread? || a.JudgeReread?) && Shape(cfg, s.procs[a.p])
    ensures LockEffect(cfg, s, Apply(cfg, s, a), a.p)
  {
  }

  lemma PollEffect(cfg: Config, s: State, a: Action)
    requires Enabled(cfg, s, a) && (a.Poll? || a.JudgePoll?) && Shape(cfg, s.procs[a.p])
    ensures LockEffect(cfg, s, Apply(cfg, s, a), a.p)
  {
  }

  lemma PeerEffect(cfg: Config, s: State, a: Action)
    requires Enabled(cfg, s, a) && (a.PeerDeserialize? || a.PeerDrop?) && Shape(cfg, s.procs[a.p])
    ensures LockEffect(cfg, s, Apply(cfg, s, a), a.p)
  {
  }

  lemma ComputeEffect(cfg: Config, s: State, a: Action)
    requires Enabled(cfg, s, a) && a.Compute? && Shape(cfg, s.procs[a.p])
    ensures LockEffect(cfg, s, Apply(cfg, s, a), a.p)
  {
    hide LockEffect, Shape, DoCompute;
    assert Apply(cfg, s, a) == DoCompute(cfg, s, a.p, a.result, a.aborted);
    ResultEffect(cfg, s, a.p, a.result, a.aborted);
  }

  lemma ResultEffect(cfg: Config, s: State, p: ProcId, result: SourceResult, aborted: bool)
    requires AtPc(s, p, Computing) && Shape(cfg, s.procs[p])
    ensures LockEffect(cfg, s, DoCompute(cfg, s, p, result, aborted), p)
  {
    hide Acquires, Releases, Leaks;
  }

  lemma CheckEffect(cfg: Config, s: State, a: Action)
    requires Enabled(cfg, s, a) && CheckStep(a) && !a.Compute? && Shape(cfg, s.procs[a.p])
    ensures LockEffect(cfg, s, Apply(cfg, s, a), a.p)
  {
  }

  lemma WriteEffect(cfg: Config, s: State, a: Action)
    requires Enabled(cfg, s, a) && WriteStep(a) && Shape(cfg, s.procs[a.p])
    ensures LockEffect(cfg, s, Apply(cfg, s, a), a.p)
  {
  }

  // ----- The invariant

  /** A holder's token is live: acquired, neither released nor leaked; its lock stands until the lease ends. */
  predicate HolderOk(s: State, x: Proc) {
    x.lease.token.Some? ==>
      var t := x.lease.token.value;
      && t in s.hist.used && t !in s.hist.leaked && s.hist.released[t] == 0
      && (s.store.lock == Some(Lock(t, x.lease.end)) || s.clock >= x.lease.end || s.env.lockDropped)
  }

  predicate Held(s: State, t: Token) {
    exists p :: 0 <= p < |s.procs| && s.procs[p].lease.token == Some(t)
  }

  predicate TokensOk(cfg: Config, s: State) {
    && (forall t :: t in s.hist.used ==> Held(s, t) || s.hist.released[t] == 1 || t in s.hist.leaked)
    && (forall t :: t in s.hist.released ==> t in s.hist.used && s.hist.released[t] == 1 && t !in s.hist.leaked)
    && (cfg.failOpenReads ==> s.hist.leaked == {})
    && (!cfg.locks ==> s.hist.used == {})
    && s.hist.leaked <= s.hist.used
    && (s.store.lock.Some? ==> s.store.lock.value.token in s.hist.used)
  }

  predicate Distinct(s: State) {
    forall p, q :: 0 <= p < q < |s.procs| && s.procs[p].lease.token.Some?
        ==> s.procs[p].lease.token != s.procs[q].lease.token
  }

  predicate Inv(cfg: Config, s: State) {
    && (forall p :: 0 <= p < |s.procs| ==> Shape(cfg, s.procs[p]) && HolderOk(s, s.procs[p]))
    && Distinct(s)
    && TokensOk(cfg, s)
  }

  lemma EffectKeeps(cfg: Config, s: State, t: State, p: ProcId)
    requires Inv(cfg, s) && LockEffect(cfg, s, t, p)
    requires forall q :: 0 <= q < |s.procs| && q != p ==> t.procs[q] == s.procs[q]
    ensures Inv(cfg, t)
  {
    HoldersKeep(cfg, s, t, p);
    DistinctKeeps(cfg, s, t, p);
    TokensKeep(cfg, s, t, p);
  }

  lemma HoldersKeep(cfg: Config, s: State, t: State, p: ProcId)
    requires Inv(cfg, s) && LockEffect(cfg, s, t, p)
    requires forall q :: 0 <= q < |s.procs| && q != p ==> t.procs[q] == s.procs[q]
    ensures forall q :: 0 <= q < |t.procs| ==> Shape(cfg, t.procs[q]) && HolderOk(t, t.procs[q])
  {
    forall q | 0 <= q < |t.procs| ensures Shape(cfg, t.procs[q]) && HolderOk(t, t.procs[q]) {
      assert HolderOk(s, s.procs[q]) && HolderOk(s, s.procs[p]);
      if q != p && t.procs[q].lease.token.Some? && s.procs[p].lease.token.Some? {
        assert s.procs[q].lease.token != s.procs[p].lease.token;
      }
    }
  }

  lemma DistinctKeeps(cfg: Config, s: State, t: State, p: ProcId)
    requires Inv(cfg, s) && LockEffect(cfg, s, t, p)
    requires forall q :: 0 <= q < |s.procs| && q != p ==> t.procs[q] == s.procs[q]
    ensures Distinct(t)
  {
    forall i, j | 0 <= i < j < |t.procs| && t.procs[i].lease.token.Some?
      ensures t.procs[i].lease.token != t.procs[j].lease.token
    {
      assert HolderOk(s, s.procs[i]) && HolderOk(s, s.procs[j]);
    }
  }

  lemma TokensKeep(cfg: Config, s: State, t: State, p: ProcId)
    requires Inv(cfg, s) && LockEffect(cfg, s, t, p)
    requires forall q :: 0 <= q < |s.procs| && q != p ==> t.procs[q] == s.procs[q]
    ensures TokensOk(cfg, t)
  {
    assert HolderOk(s, s.procs[p]);
    forall k | k in t.hist.used ensures Held(t, k) || t.hist.released[k] == 1 || k in t.hist.leaked {
      if t.procs[p].lease.token == Some(k) {
      } else if Held(s, k) {
        var q :| 0 <= q < |s.procs| && s.procs[q].lease.token == Some(k);
        if q != p { assert t.procs[q].lease.token == Some(k); }
      }
    }
  }

  lemma EnvironmentKeeps(cfg: Config, s: State, a: Action)
    requires Inv(cfg, s) && Enabled(cfg, s, a) && EnvironmentStep(a)
    ensures Inv(cfg, Apply(cfg, s, a))
  {
    hide Inv, Shape, Distinct, TokensOk, HolderOk;
    EnvironmentEffect(cfg, s, a);
    SoftKeeps(cfg, s, Apply(cfg, s, a));
  }

  /** The environment can only let time pass or lose the lock. */
  predicate Soft(s: State, t: State) {
    && t.procs == s.procs && t.clock >= s.clock
    && (s.env.lockDropped ==> t.env.lockDropped)
    && (t.store.lock == s.store.lock || (t.store.lock.None? && t.env.lockDropped))
    && t.hist.used == s.hist.used && t.hist.released == s.hist.released && t.hist.leaked == s.hist.leaked
  }

  lemma EnvironmentEffect(cfg: Config, s: State, a: Action)
    requires Enabled(cfg, s, a) && EnvironmentStep(a)
    ensures Soft(s, Apply(cfg, s, a))
  {
  }

  lemma SoftKeeps(cfg: Config, s: State, t: State)
    requires Inv(cfg, s) && Soft(s, t)
    ensures Inv(cfg, t)
  {
    forall q | 0 <= q < |t.procs| ensures Shape(cfg, t.procs[q]) && HolderOk(t, t.procs[q]) {
      assert HolderOk(s, s.procs[q]);
    }
    forall k | k in t.hist.used ensures Held(t, k) || t.hist.released[k] == 1 || k in t.hist.leaked {
      if Held(s, k) {
        var q :| 0 <= q < |s.procs| && s.procs[q].lease.token == Some(k);
        assert t.procs[q].lease.token == Some(k);
      }
    }
  }

  lemma StepEffect(cfg: Config, s: State, a: Action)
    requires Enabled(cfg, s, a) && Actor(a).Some? && Actor(a).value < |s.procs| && Shape(cfg, s.procs[Actor(a).value])
    ensures LockEffect(cfg, s, Apply(cfg, s, a), Actor(a).value)
  {
    hide Apply, Shape, LockEffect;
    if a.Release? || a.ReleaseEarly? { ReleaseEffect(cfg, s, a); }
    else if a.Deserialize? { DeserializeEffect(cfg, s, a); }
    else if CallStep(a) { ReadEffect(cfg, s, a); }
    else if a.TryLock? { AcquireEffect(cfg, s, a); }
    else if a.LockError? { LockErrorEffect(cfg, s, a); }
    else if LockStep(a) { RereadEffect(cfg, s, a); }
    else if a.Poll? || a.JudgePoll? { PollEffect(cfg, s, a); }
    else if WaitStep(a) { PeerEffect(cfg, s, a); }
    else if a.Compute? { ComputeEffect(cfg, s, a); }
    else if CheckStep(a) { CheckEffect(cfg, s, a); }
    else { WriteEffect(cfg, s, a); }
  }

  lemma StepKeeps(cfg: Config, s: State, a: Action)
    requires Inv(cfg, s) && Enabled(cfg, s, a)
    ensures Inv(cfg, Apply(cfg, s, a))
  {
    hide Apply;
    if EnvironmentStep(a) {
      EnvironmentKeeps(cfg, s, a);
    } else {
      StepEffect(cfg, s, a);
      OnlyActorMoves(cfg, s, a);
      EffectKeeps(cfg, s, Apply(cfg, s, a), Actor(a).value);
    }
  }

  lemma {:induction false} RunKeeps(cfg: Config, s: State, run: seq<Action>)
    requires Inv(cfg, s) && CanRun(cfg, s, run)
    ensures Inv(cfg, After(cfg, s, run))
    decreases |run|
  {
    if run != [] {
      StepKeeps(cfg, s, run[0]);
      RunKeeps(cfg, Apply(cfg, s, run[0]), run[1..]);
    }
  }

  /**
   * In every run, two processes work under their locks at once only if a lease has ended or the storage lost a lock.
   */
  lemma Exclusion(cfg: Config, n: nat, run: seq<Action>, p: ProcId, q: ProcId)
    requires CanRun(cfg, Start(n), run) && p < n && q < n && p != q
    ensures
      var s := After(cfg, Start(n), run);
      |s.procs| == n && (
        s.procs[p].lease.token.Some? && s.procs[q].lease.token.Some? ==>
        s.clock >= s.procs[p].lease.end || s.clock >= s.procs[q].lease.end || s.env.lockDropped)
  {
    RunKeeps(cfg, Start(n), run);
    ProcessCount(cfg, Start(n), run);
    var s := After(cfg, Start(n), run);
    assert HolderOk(s, s.procs[p]) && HolderOk(s, s.procs[q]);
    assert s.procs[if p < q then p else q].lease.token.Some? ==> s.procs[p].lease.token != s.procs[q].lease.token;
  }

  lemma {:induction false} ProcessCount(cfg: Config, s: State, run: seq<Action>)
    requires CanRun(cfg, s, run)
    ensures |After(cfg, s, run).procs| == |s.procs|
    decreases |run|
  {
    if run != [] {
      OnlyActorMoves(cfg, s, run[0]);
      ProcessCount(cfg, Apply(cfg, s, run[0]), run[1..]);
    }
  }

  /** The four ways around the lock. */
  predicate Excused(s: State, x: Proc) {
    || x.lease.reason == AcquireError
    || x.lease.reason == WaitTimeout
    || x.lease.reason == PeerCorrupt
    || (x.lease.token.Some? && s.clock >= x.lease.end)
  }

  /**
   * With locks enabled, two processes compute the key together only after a failed acquisition, a wait that
   * timed out with "proceed", an undecodable peer entry, a lease that ended, or a lock lost by the storage.
   */
  lemma OneComputes(cfg: Config, n: nat, run: seq<Action>, p: ProcId, q: ProcId)
    requires cfg.locks && CanRun(cfg, Start(n), run) && p < n && q < n && p != q
    ensures
      var s := After(cfg, Start(n), run);
      |s.procs| == n && (
        Working(s.procs[p]) && Working(s.procs[q]) ==>
        Excused(s, s.procs[p]) || Excused(s, s.procs[q]) || s.env.lockDropped)
  {
    RunKeeps(cfg, Start(n), run);
    Exclusion(cfg, n, run, p, q);
    var s := After(cfg, Start(n), run);
    assert Shape(cfg, s.procs[p]) && Shape(cfg, s.procs[q]);
  }

  /**
   * In every run each acquired lock is held by one working process, or was released exactly once, or, only
   * with fail-closed reads, was leaked by a re-read that threw; a finished call holds nothing.
   */
  lemma EveryLockReleased(cfg: Config, n: nat, run: seq<Action>, token: Token)
    requires CanRun(cfg, Start(n), run)
    ensures
      var s := After(cfg, Start(n), run);
      && (token in s.hist.used ==>
            || (Held(s, token) && s.hist.released[token] == 0 && token !in s.hist.leaked)
            || (!Held(s, token) && s.hist.released[token] == 1 && token !in s.hist.leaked)
            || (!Held(s, token) && s.hist.released[token] == 0 && token in s.hist.leaked && !cfg.failOpenReads))
      && (forall p :: 0 <= p < |s.procs| && s.procs[p].pc == Idle ==> s.procs[p].lease.token.None?)
  {
    RunKeeps(cfg, Start(n), run);
    var s := After(cfg, Start(n), run);
    forall p | 0 <= p < |s.procs|
      ensures HolderOk(s, s.procs[p]) && (s.procs[p].pc == Idle ==> s.procs[p].lease.token.None?)
    {
      assert Shape(cfg, s.procs[p]);
    }
  }

  /** The stored lock is the one process `q` acquired and still has to release. */
  predicate Owns(s: State, q: ProcId)
    requires q < |s.procs|
  {
    s.procs[q].lease.token.Some? && s.store.lock.Some? && s.store.lock.value.token == s.procs[q].lease.token.value
  }

  /** A release, however late, never removes a lock taken over by someone else. */
  lemma StaleReleaseHarmless(cfg: Config, n: nat, run: seq<Action>, a: Action)
    requires CanRun(cfg, Start(n), run) && Enabled(cfg, After(cfg, Start(n), run), a)
    requires a.Release? || a.ReleaseEarly?
    ensures
      var s := After(cfg, Start(n), run);
      forall q :: 0 <= q < |s.procs| && q != a.p && Owns(s, q) ==> Apply(cfg, s, a).store.lock == s.store.lock
  {
    RunKeeps(cfg, Start(n), run);
    var s := After(cfg, Start(n), run);
    assert Shape(cfg, s.procs[a.p]);
    ReleaseEffect(cfg, s, a);
    forall q | 0 <= q < |s.procs| && q != a.p && Owns(s, q)
      ensures Apply(cfg, s, a).store.lock == s.store.lock
    {
      assert s.procs[q].lease.token != s.procs[a.p].lease.token;
    }
  }

  /**
   * For every configuration with locks and fail-closed reads: the re-read under the lock throws, the call is
   * over, and its lock stays for the whole of its lifetime.
   */
  lemma FailClosedLeaks(cfg: Config)
    requires cfg.locks && !cfg.failOpenReads
    ensures exists run ::
      && CanRun(cfg, Start(1), run)
      && var s := After(cfg, Start(1), run);
         s.procs == [IDLE] && s.clock == 0 && s.store.lock == Some(Lock(7, cfg.lockTtlMs)) && s.hist.leaked == {7}
  {
    var run, s := Acquired(cfg);
    run, s := Then(cfg, 1, run, s, Reread(0, false));
    assert s.procs == [IDLE];
  }

  /** Some run leaves a lock that nobody will release exactly when locks are on and reads fail closed. */
  lemma LeaksIff(cfg: Config)
    ensures (exists n: nat, run :: CanRun(cfg, Start(n), run) && After(cfg, Start(n), run).hist.leaked != {})
            <==> cfg.locks && !cfg.failOpenReads
  {
    if cfg.locks && !cfg.failOpenReads {
      FailClosedLeaks(cfg);
      var run :| CanRun(cfg, Start(1), run) && After(cfg, Start(1), run).hist.leaked == {7};
      assert 7 in After(cfg, Start(1), run).hist.leaked;
    }
    forall n: nat, run | CanRun(cfg, Start(n), run) && After(cfg, Start(n), run).hist.leaked != {}
      ensures cfg.locks && !cfg.failOpenReads
    {
      hide CanRun, After;
      StartKeeps(cfg, n);
      RunKeeps(cfg, Start(n), run);
    }
  }

  lemma StartKeeps(cfg: Config, n: nat)
    ensures Inv(cfg, Start(n))
  {
  }

  /** A miss followed by a successful acquisition. */
  lemma Acquired(cfg: Config) returns (run: seq<Action>, s: State)
    requires cfg.locks
    ensures CanRun(cfg, Start(1), run) && s == After(cfg, Start(1), run)
    ensures AtPc(s, 0, Rereading) && |s.procs| == 1 && s.clock == 0 && s.procs[0].fallback.None? && s.hist.leaked == {}
    ensures s.procs[0].lease == Lease(Some(7), cfg.lockTtlMs, ByLock) && s.store.lock == Some(Lock(7, cfg.lockTtlMs))
  {
    run, s := [], Start(1);
    run, s := Then(cfg, 1, run, s, Read(0, true));
    run, s := Then(cfg, 1, run, s, Judge(0));
    run, s := Then(cfg, 1, run, s, TryLock(0, 7));
  }
}
