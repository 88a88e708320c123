/** Strict invalidation: tombstones against writes that were already under way. */
module RefreshStrict {
  import opened Wrappers
  import opened Refresh

  /** No two invalidations of the tag overlapped and the storage kept its tombstone. */
  predicate Regular(env: Environment, t: Tag) {
    t !in env.overlapped && t !in env.dropped
  }

  /** A stored tombstone carries the latest invalidation time of its tag. */
  predicate TombstonesLatest(s: State) {
    forall t :: t in s.hist.latest && Regular(s.env, t) ==> t in s.store.tombs && s.store.tombs[t] == s.hist.latest[t]
  }

  predicate RunningIsLast(s: State) {
    && (forall i :: i in s.env.running ==> s.env.running[i].at <= s.clock)
    && (forall i, j ::
          i in s.env.running && j in s.env.running && i != j && s.env.running[i].tag == s.env.running[j].tag
          ==> s.env.running[i].tag in s.env.overlapped)
    && (forall i ::
          i in s.env.running && s.env.running[i].tag in s.hist.latest && s.env.running[i].tag !in s.env.overlapped
          ==> s.hist.latest[s.env.running[i].tag] <= s.env.running[i].at)
    && (forall t :: t in s.hist.latest ==> s.hist.latest[t] <= s.clock)
  }

  /** Of a regular tag with a tombstone, the tombstone read was the latest. */
  predicate SawLatest(env: Environment, read: map<Tag, Option<int>>, vetted: map<Tag, int>) {
    forall t :: t in vetted && Regular(env, t) ==> t in read && read[t] == Some(vetted[t])
  }

  /** A function that looks elsewhere finds no tombstone. */
  predicate FoundNothing(read: map<Tag, Option<int>>) {
    forall t :: t in read ==> read[t].None?
  }

  predicate Sound(cfg: Config, env: Environment, read: map<Tag, Option<int>>, vetted: map<Tag, int>) {
    if cfg.findsTombstones then SawLatest(env, read, vetted) else FoundNothing(read)
  }

  /** Every tombstone that was read is older than the computation; all tags were read, or the check failed. */
  predicate Passed(cfg: Config, read: map<Tag, Option<int>>, startedAt: int) {
    && (forall t :: t in read && read[t].Some? ==> read[t].value < startedAt)
    && (read.Keys == cfg.tags || read == map[])
  }

  predicate Vetted(cfg: Config, env: Environment, x: Proc) {
    Sound(cfg, env, x.job.read, x.job.vetted) && (x.pc == Committing ==> Passed(cfg, x.job.read, x.startedAt))
  }

  predicate CommitOk(cfg: Config, env: Environment, c: Commit) {
    Sound(cfg, env, c.read, c.vetted) && Passed(cfg, c.read, c.startedAt)
  }

  predicate LogVetted(cfg: Config, env: Environment, log: seq<Commit>) {
    forall i :: 0 <= i < |log| ==> CommitOk(cfg, env, log[i])
  }

  /** A stored entry was written by the newest commit. */
  predicate Newest(s: State) {
    s.store.entry.Some? ==> s.hist.log != [] && s.hist.log[|s.hist.log| - 1].startedAt == s.store.entry.value.startedAt
  }

  predicate Inv(cfg: Config, s: State) {
    && TombstonesLatest(s)
    && RunningIsLast(s)
    && Newest(s)
    && LogVetted(cfg, s.env, s.hist.log)
    && forall p :: 0 <= p < |s.procs| ==> Vetted(cfg, s.env, s.procs[p])
  }

  /** Processes neither move the clock nor touch tombstones or invalidations. */
  predicate KeepsTombstones(s: State, t: State) {
    t.clock == s.clock && t.store.tombs == s.store.tombs && t.hist.latest == s.hist.latest && t.env == s.env
  }

  /** The log stays and so does the entry, unless it is removed. */
  predicate KeepsLog(s: State, t: State) {
    t.hist.log == s.hist.log && (t.store.entry == s.store.entry || t.store.entry.None?)
  }

  /** The one commit a step may add is that of its actor. */
  predicate Adds(s: State, t: State, x: Proc) {
    && |t.hist.log| == |s.hist.log| + 1 && t.hist.log[..|s.hist.log|] == s.hist.log
    && var c := t.hist.log[|s.hist.log|];
       c.startedAt == x.startedAt && c.read == x.job.read && c.vetted == x.job.vetted
       && t.store.entry.Some? && t.store.entry.value.startedAt == x.startedAt
  }

  predicate Logged(s: State, t: State, a: Action) {
    KeepsLog(s, t) || (a.CompareAndSet? && a.p < |s.procs| && Adds(s, t, s.procs[a.p]))
  }

  lemma ProcessKeeps(cfg: Config, s: State, t: State, a: Action)
    requires Inv(cfg, s) && OnlyActor(s, t, a) && Harmless(cfg, s, t, a)
    requires a.CompareAndSet? ==> s.procs[a.p].pc == Committing
    ensures Inv(cfg, t)
  {
    hide Sound, Passed;
    forall p | 0 <= p < |t.procs| ensures Vetted(cfg, t.env, t.procs[p]) {
      assert Vetted(cfg, s.env, s.procs[p]);
    }
    if a.CompareAndSet? {
      assert Vetted(cfg, s.env, s.procs[a.p]);
      forall i | 0 <= i < |t.hist.log| ensures CommitOk(cfg, t.env, t.hist.log[i]) {
        if i < |s.hist.log| { assert t.hist.log[i] == s.hist.log[i]; }
      }
    }
  }

  /** A step that writes no tombstone and leaves its actor with nothing unvetted. */
  predicate Harmless(cfg: Config, s: State, t: State, a: Action) {
    && Actor(a).Some? && Actor(a).value < |t.procs|
    && KeepsTombstones(s, t) && Logged(s, t, a) && Vetted(cfg, t.env, t.procs[Actor(a).value])
  }

  lemma CallSteps(cfg: Config, s: State, a: Action)
    requires Inv(cfg, s) && Enabled(cfg, s, a) && (a.Read? || a.Judge? || a.DropCorrupt?)
    ensures Harmless(cfg, s, Apply(cfg, s, a), a)
  {
    hide TombstonesLatest, RunningIsLast, LogVetted, SawLatest;
    assert Vetted(cfg, s.env, s.procs[a.p]);
    NothingRead(cfg, s.env);
  }

  lemma NothingRead(cfg: Config, env: Environment)
    ensures Sound(cfg, env, map[], map[]) && Vetted(cfg, env, IDLE)
  {
  }

  lemma DeserializeSteps(cfg: Config, s: State, a: Action)
    requires Inv(cfg, s) && Enabled(cfg, s, a) && a.Deserialize?
    ensures Harmless(cfg, s, Apply(cfg, s, a), a)
  {
    hide TombstonesLatest, RunningIsLast, LogVetted, Sound;
    assert Vetted(cfg, s.env, s.procs[a.p]);
    NothingRead(cfg, s.env);
  }

  lemma ReleaseSteps(cfg: Config, s: State, a: Action)
    requires Inv(cfg, s) && Enabled(cfg, s, a) && a.Release?
    ensures Harmless(cfg, s, Apply(cfg, s, a), a)
  {
    hide TombstonesLatest, RunningIsLast, LogVetted, Sound;
    assert Vetted(cfg, s.env, s.procs[a.p]);
    NothingRead(cfg, s.env);
  }

  lemma TryLockSteps(cfg: Config, s: State, a: Action)
    requires Inv(cfg, s) && Enabled(cfg, s, a) && (a.TryLock? || a.LockError?)
    ensures Harmless(cfg, s, Apply(cfg, s, a), a)
  {
    hide TombstonesLatest, RunningIsLast, LogVetted, Sound;
    assert Vetted(cfg, s.env, s.procs[a.p]);
    NothingRead(cfg, s.env);
  }

  lemma RereadSteps(cfg: Config, s: State, a: Action)
    requires Inv(cfg, s) && Enabled(cfg, s, a) && (a.Reread? || a.JudgeReread? || a.ReleaseEarly?)
    ensures Harmless(cfg, s, Apply(cfg, s, a), a)
  {
    hide TombstonesLatest, RunningIsLast, LogVetted, Sound;
    assert Vetted(cfg, s.env, s.procs[a.p]);
    NothingRead(cfg, s.env);
  }

  lemma PollSteps(cfg: Config, s: State, a: Action)
    requires Inv(cfg, s) && Enabled(cfg, s, a) && (a.Poll? || a.JudgePoll?)
    ensures Harmless(cfg, s, Apply(cfg, s, a), a)
  {
    hide TombstonesLatest, RunningIsLast, LogVetted, Sound;
    assert Vetted(cfg, s.env, s.procs[a.p]);
    NothingRead(cfg, s.env);
  }

  lemma PeerSteps(cfg: Config, s: State, a: Action)
    requires Inv(cfg, s) && Enabled(cfg, s, a) && (a.PeerDeserialize? || a.PeerDrop?)
    ensures Harmless(cfg, s, Apply(cfg, s, a), a)
  {
    hide TombstonesLatest, RunningIsLast, LogVetted, Sound;
    assert Vetted(cfg, s.env, s.procs[a.p]);
    NothingRead(cfg, s.env);
  }

  lemma ComputeSteps(cfg: Config, s: State, a: Action)
    requires Inv(cfg, s) && Enabled(cfg, s, a) && a.Compute?
    ensures Harmless(cfg, s, Apply(cfg, s, a), a)
  {
    hide TombstonesLatest, RunningIsLast, LogVetted, Sound;
    assert Vetted(cfg, s.env, s.procs[a.p]);
    NothingRead(cfg, s.env);
  }

  lemma CheckErrorSteps(cfg: Config, s: State, a: Action)
    requires Inv(cfg, s) && Enabled(cfg, s, a) && a.CheckError?
    ensures Harmless(cfg, s, Apply(cfg, s, a), a)
  {
    hide TombstonesLatest, RunningIsLast, LogVetted, Sound;
    assert Vetted(cfg, s.env, s.procs[a.p]);
    NothingRead(cfg, s.env);
  }

  lemma FailedWrites(cfg: Config, s: State, a: Action)
    requires Inv(cfg, s) && Enabled(cfg, s, a) && (a.PrepareError? || a.CommitError?)
    ensures Harmless(cfg, s, Apply(cfg, s, a), a)
  {
    hide TombstonesLatest, RunningIsLast, LogVetted, Sound;
    assert Vetted(cfg, s.env, s.procs[a.p]);
    NothingRead(cfg, s.env);
  }

  lemma CommitSteps(cfg: Config, s: State, a: Action)
    requires Inv(cfg, s) && Enabled(cfg, s, a) && a.CompareAndSet?
    ensures Harmless(cfg, s, Apply(cfg, s, a), a)
  {
    hide TombstonesLatest, RunningIsLast, LogVetted, Sound;
    assert Vetted(cfg, s.env, s.procs[a.p]);
  }

  lemma CheckTagKeeps(cfg: Config, s: State, p: ProcId, t: Tag)
    requires Inv(cfg, s) && Enabled(cfg, s, CheckTag(p, t))
    ensures Harmless(cfg, s, Apply(cfg, s, CheckTag(p, t)), CheckTag(p, t))
  {
    assert Vetted(cfg, s.env, s.procs[p]);
  }

  lemma CheckDoneKeeps(cfg: Config, s: State, p: ProcId)
    requires Inv(cfg, s) && Enabled(cfg, s, CheckDone(p))
    ensures Harmless(cfg, s, Apply(cfg, s, CheckDone(p)), CheckDone(p))
  {
    hide TombstonesLatest, RunningIsLast, LogVetted, Sound;
    assert Vetted(cfg, s.env, s.procs[p]);
  }

  /** Tombstone and invalidation steps; the sets of irregular tags only grow. */
  lemma EnvironmentKeeps(cfg: Config, s: State, a: Action)
    requires Inv(cfg, s) && Enabled(cfg, s, a) && EnvironmentStep(a)
    ensures Inv(cfg, Apply(cfg, s, a))
  {
    var t := Apply(cfg, s, a);
    GrowingKeeps(cfg, s, t);
    if a.StoreTombstone? { StoreKeeps(s, a.id, a.ok); }
    else if a.BeginInvalidation? { BeginKeeps(s, a.id, a.tag); }
    else { OthersKeep(cfg, s, a); }
  }

  lemma GrowingKeeps(cfg: Config, s: State, t: State)
    requires Inv(cfg, s)
    ensures s.env.overlapped <= t.env.overlapped && s.env.dropped <= t.env.dropped && t.procs == s.procs
            && t.hist.log == s.hist.log
      ==> LogVetted(cfg, t.env, t.hist.log) && forall p :: 0 <= p < |t.procs| ==> Vetted(cfg, t.env, t.procs[p])
  {
    if s.env.overlapped <= t.env.overlapped && s.env.dropped <= t.env.dropped && t.procs == s.procs
        && t.hist.log == s.hist.log {
      forall p | 0 <= p < |t.procs| ensures Vetted(cfg, t.env, t.procs[p]) {
        assert Vetted(cfg, s.env, s.procs[p]);
      }
      forall i | 0 <= i < |t.hist.log| ensures CommitOk(cfg, t.env, t.hist.log[i]) {
        assert CommitOk(cfg, s.env, s.hist.log[i]);
      }
    }
  }

  lemma StoreKeeps(s: State, id: nat, ok: bool)
    requires TombstonesLatest(s) && RunningIsLast(s) && id in s.env.running
    ensures TombstonesLatest(DoStoreTombstone(s, id, ok)) && RunningIsLast(DoStoreTombstone(s, id, ok))
  {
  }

  lemma BeginKeeps(s: State, id: nat, tag: Tag)
    requires TombstonesLatest(s) && RunningIsLast(s) && id !in s.env.running
    ensures TombstonesLatest(DoBeginInvalidation(s, id, tag)) && RunningIsLast(DoBeginInvalidation(s, id, tag))
  {
  }

  lemma OthersKeep(cfg: Config, s: State, a: Action)
    requires TombstonesLatest(s) && RunningIsLast(s)
    requires Enabled(cfg, s, a) && EnvironmentStep(a) && !a.StoreTombstone? && !a.BeginInvalidation?
    ensures TombstonesLatest(Apply(cfg, s, a)) && RunningIsLast(Apply(cfg, s, a))
  {
  }

  lemma StepKeeps(cfg: Config, s: State, a: Action)
    requires Inv(cfg, s) && Enabled(cfg, s, a)
    ensures Inv(cfg, Apply(cfg, s, a))
  {
    hide Inv;
    if EnvironmentStep(a) {
      EnvironmentKeeps(cfg, s, a);
    } else {
      if a.Deserialize? { DeserializeSteps(cfg, s, a); }
      else if a.Release? { ReleaseSteps(cfg, s, a); }
      else if CallStep(a) { CallSteps(cfg, s, a); }
      else if a.TryLock? || a.LockError? { TryLockSteps(cfg, s, a); }
      else if LockStep(a) { RereadSteps(cfg, s, a); }
      else if a.Poll? || a.JudgePoll? { PollSteps(cfg, s, a); }
      else if WaitStep(a) { PeerSteps(cfg, s, a); }
      else if a.CheckTag? { CheckTagKeeps(cfg, s, a.p, a.tag); }
      else if a.CheckDone? { CheckDoneKeeps(cfg, s, a.p); }
      else if a.Compute? { ComputeSteps(cfg, s, a); }
      else if CheckStep(a) { CheckErrorSteps(cfg, s, a); }
      else if a.CompareAndSet? { CommitSteps(cfg, s, a); }
      else { FailedWrites(cfg, s, a); }
      OnlyActorMoves(cfg, s, a);
      ProcessKeeps(cfg, s, Apply(cfg, s, a), a);
    }
  }

  lemma {:induction false} RunKeeps(cfg: Config, s: State, run: seq<Action>)
    requires Inv(cfg, s) && CanRun(cfg, s, run)
    ensures Inv(cfg, After(cfg, s, run))
    decreases |run|
  {
    if run != [] {
      StepKeeps(cfg, s, run[0]);
      RunKeeps(cfg, Apply(cfg, s, run[0]), run[1..]);
    }
  }

  /**
   * In every run, a committed value whose check read the latest tombstone of a tag began to be computed after
   * that invalidation. A function that finds tombstones reads the latest whenever one was stored, unless
   * invalidations of the tag overlapped or the storage lost its tombstone.
   */
  lemma StrictInvalidation(cfg: Config, n: nat, run: seq<Action>)
    requires CanRun(cfg, Start(n), run)
    ensures
      var s := After(cfg, Start(n), run);
      forall i, t :: 0 <= i < |s.hist.log| && t in s.hist.log[i].vetted ==>
        var c := s.hist.log[i];
        && (t in c.read && c.read[t] == Some(c.vetted[t]) ==> c.startedAt > c.vetted[t])
        && (cfg.findsTombstones && Regular(s.env, t) ==> t in c.read && c.read[t] == Some(c.vetted[t]))
  {
    hide TombstonesLatest, RunningIsLast, CanRun, After;
    StartKeeps(cfg, n);
    RunKeeps(cfg, Start(n), run);
    var s := After(cfg, Start(n), run);
    forall i, t | 0 <= i < |s.hist.log| && t in s.hist.log[i].vetted
      ensures t in s.hist.log[i].read && s.hist.log[i].read[t] == Some(s.hist.log[i].vetted[t])
              ==> s.hist.log[i].startedAt > s.hist.log[i].vetted[t]
      ensures cfg.findsTombstones && Regular(s.env, t)
              ==> t in s.hist.log[i].read && s.hist.log[i].read[t] == Some(s.hist.log[i].vetted[t])
    {
      assert CommitOk(cfg, s.env, s.hist.log[i]);
    }
  }

  lemma StartKeeps(cfg: Config, n: nat)
    ensures Inv(cfg, Start(n))
  {
  }

  /** A function that looks for tombstones elsewhere finds none: in no run is a write of it refused. */
  lemma ElsewhereNeverRefused(cfg: Config, n: nat, run: seq<Action>, p: ProcId)
    requires !cfg.findsTombstones && CanRun(cfg, Start(n), run) && p < |After(cfg, Start(n), run).procs|
    ensures FoundNothing(After(cfg, Start(n), run).procs[p].job.read) && !Refused(After(cfg, Start(n), run).procs[p])
  {
    hide TombstonesLatest, RunningIsLast, CanRun, After;
    StartKeeps(cfg, n);
    RunKeeps(cfg, Start(n), run);
    var s := After(cfg, Start(n), run);
    assert Vetted(cfg, s.env, s.procs[p]);
  }

  /**
   * In every run of a strict function that finds tombstones: if a stored entry began to be computed no later than the
   * latest invalidation of a regular tag of it, then its check of that tag preceded the storing of that
   * tombstone, or the check failed.
   */
  lemma CheckedBeforeStored(cfg: Config, n: nat, run: seq<Action>, t: Tag)
    requires cfg.findsTombstones && cfg.strict && t in cfg.tags && CanRun(cfg, Start(n), run)
    requires var s := After(cfg, Start(n), run);
             s.store.entry.Some? && Regular(s.env, t) && t in s.hist.latest
             && s.store.entry.value.startedAt <= s.hist.latest[t]
    ensures var s := After(cfg, Start(n), run);
            s.hist.log != [] &&
            var c := s.hist.log[|s.hist.log| - 1];
            c.startedAt == s.store.entry.value.startedAt
            && (c.read == map[] || (t in c.read && (t !in c.vetted || c.vetted[t] < s.hist.latest[t])))
  {
    hide TombstonesLatest, RunningIsLast, CanRun, After;
    StartKeeps(cfg, n);
    RunKeeps(cfg, Start(n), run);
    var s := After(cfg, Start(n), run);
    var c := s.hist.log[|s.hist.log| - 1];
    assert CommitOk(cfg, s.env, c);
  }
}
