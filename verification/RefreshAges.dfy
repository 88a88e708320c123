/**
 * What becomes of a call by the age of what it finds, and of what is stored by the actions of the run: in terms of
 * the options, of when a write began, and of which computations produced what.
 */
module RefreshAges {
  import opened Wrappers
  import opened Entries
  import opened Refresh
  import opened RefreshOrigins
  import opened RefreshRemovals
  import A = RefreshAnswers

  // ----- What a call finds

  lemma RunOk(cfg: Config, n: nat, run: seq<Action>)
    requires CanRun(cfg, Start(n), run)
    ensures A.Inv(cfg, After(cfg, Start(n), run)) && Inv(cfg, run, After(cfg, Start(n), run))
  {
    hide Inv, A.Inv;
    RunInv(cfg, n, run);
    A.StartKeeps(cfg, n);
    A.RunKeeps(cfg, Start(n), run);
  }

  /** Reading finds what is stored, and that is the newest commit. */
  lemma ReadFindsNewest(cfg: Config, n: nat, run: seq<Action>, p: ProcId)
    requires CanRun(cfg, Start(n), run) && AtPc(After(cfg, Start(n), run), p, Idle)
    ensures var s := After(cfg, Start(n), run);
            var t := Apply(cfg, s, Read(p, true));
            p < |t.procs| && t.procs[p].pc == Judging && t.procs[p].seen.len == |s.hist.log|
            && (t.procs[p].found.Some? <==> s.store.entry.Some?)
            && (t.procs[p].found.Some? ==>
                  s.hist.log != []
                  && Shows(t.procs[p].found.value, s.hist.log[|s.hist.log| - 1]))
  {
    hide CanRun, After, Inv;
    RunOk(cfg, n, run);
  }

  /** An entry with the data of a commit. */
  predicate Shows(e: Entry, c: Commit) {
    e.payload == c.payload && e.state == c.state && e.revision == c.revision
    && e.createdAt == c.at && e.startedAt == c.startedAt
  }

  /** How old a commit may be to be served: fresh, or stale. */
  predicate FreshAt(cfg: Config, c: Commit, now: int) {
    var ttl := if c.state.ErrorState? then cfg.errorTtlMs else cfg.ttlMs;
    ttl.None? || now < c.at + ttl.value
  }

  predicate StaleAt(cfg: Config, c: Commit, now: int) {
    !c.state.ErrorState? && cfg.ttlMs.Some? && cfg.staleTtlMs.Some?
    && c.at + cfg.ttlMs.value <= now < c.at + cfg.ttlMs.value + cfg.staleTtlMs.value
  }

  lemma AgeDecides(cfg: Config, c: Commit, e: Entry, now: int)
    requires A.EntryOf(cfg, c, e)
    ensures FreshnessOf(e, now) == Fresh <==> FreshAt(cfg, c, now)
    ensures FreshnessOf(e, now) == Stale <==> StaleAt(cfg, c, now)
  {
  }

  /**
   * In every run, of a call that has found an entry: it goes on with it while the commit it found is within its
   * lifetime or its stale window; otherwise it refreshes, as it does when it has found none.
   */
  lemma JudgedByAge(cfg: Config, n: nat, run: seq<Action>, p: ProcId)
    requires CanRun(cfg, Start(n), run) && AtPc(After(cfg, Start(n), run), p, Judging)
    ensures var s := After(cfg, Start(n), run);
            var x, t := s.procs[p], Apply(cfg, s, Judge(p));
            t.store == s.store && t.hist == s.hist && p < |t.procs| &&
            (x.found.Some? ==> 0 < x.seen.len <= |s.hist.log| && Shows(x.found.value, s.hist.log[x.seen.len - 1])) &&
            if x.found.Some?
               && (var c := s.hist.log[x.seen.len - 1]; FreshAt(cfg, c, s.clock) || StaleAt(cfg, c, s.clock))
            then t.procs[p] == x.(pc := Deserializing, judgedAt := s.clock)
            else t.procs[p].pc == (if cfg.locks then Locking else Computing) && t.procs[p].startedAt == s.clock
  {
    hide CanRun, After, Inv, FreshAt, StaleAt, FreshnessOf;
    RunOk(cfg, n, run);
    var s := After(cfg, Start(n), run);
    var x := s.procs[p];
    assert A.ProcOk(cfg, s.hist.log, x);
    if x.found.Some? { AgeDecides(cfg, s.hist.log[x.seen.len - 1], x.found.value, s.clock); }
  }

  /** The answer to a call for which an entry is served. */
  predicate Serves(a: Answer, c: Commit) {
    if c.state.ErrorState? then a.Threw?
    else a.Returned? && a.source.FromCache? && Shows(a.source.entry, c)
  }

  /** The call is over with one answer and has touched neither lock nor entry. */
  predicate Hit(s: State, t: State, p: ProcId, c: Commit) {
    p < |t.procs| && t.procs[p] == IDLE && t.store == s.store && t.hist.used == s.hist.used && t.hist.log == s.hist.log
    && |t.hist.answers| == |s.hist.answers| + 1 && t.hist.answers[..|s.hist.answers|] == s.hist.answers
    && Serves(t.hist.answers[|s.hist.answers|], c)
  }

  /**
   * A stale entry is refreshed: in the background, after it was answered; or else before anything is answered, and
   * then it may serve as a fallback.
   */
  predicate Revalidates(cfg: Config, s: State, t: State, p: ProcId, c: Commit) {
    p < |t.procs| && t.procs[p].pc == (if cfg.locks then Locking else Computing) && t.procs[p].startedAt == s.clock
    && t.store == s.store && t.procs[p].detached == cfg.background
    && (if cfg.background then
          |t.hist.answers| == |s.hist.answers| + 1 && t.hist.answers[..|s.hist.answers|] == s.hist.answers
          && Serves(t.hist.answers[|s.hist.answers|], c)
        else t.hist.answers == s.hist.answers)
    && (!cfg.background ==>
          (t.procs[p].fallback.Some? <==> cfg.serveStaleOnError)
          && (t.procs[p].fallback.Some? ==> Serves(Returned(t.procs[p].fallback.value), c)))
  }

  /**
   * In every run, of a call that goes on with what it found: judged within its lifetime, the commit is served and the
   * call is over without a lock or a computation; judged within the stale window, it is refreshed; and one that does
   * not decode is dropped next.
   */
  lemma ServedByAge(cfg: Config, n: nat, run: seq<Action>, p: ProcId, ok: bool)
    requires CanRun(cfg, Start(n), run) && AtPc(After(cfg, Start(n), run), p, Deserializing)
    ensures var s := After(cfg, Start(n), run);
            var x := s.procs[p];
            x.found.Some? && 0 < x.seen.len <= |s.hist.log| &&
            var c, t := s.hist.log[x.seen.len - 1], Apply(cfg, s, Deserialize(p, ok));
            Shows(x.found.value, c) && (FreshAt(cfg, c, x.judgedAt) || StaleAt(cfg, c, x.judgedAt)) &&
            if !ok then t == Put(s, p, x.(pc := Dropping))
            else if FreshAt(cfg, c, x.judgedAt) then Hit(s, t, p, c) else Revalidates(cfg, s, t, p, c)
  {
    hide CanRun, After, FreshAt, FreshnessOf, Hit, Revalidates;
    RunOk(cfg, n, run);
    var s := After(cfg, Start(n), run);
    var x := s.procs[p];
    assert A.ProcOk(cfg, s.hist.log, x) && ProcOk(cfg, run, p, x);
    AgeDecides(cfg, s.hist.log[x.seen.len - 1], x.found.value, x.judgedAt);
    if ok { DecodedEntry(cfg, s, p, s.hist.log[x.seen.len - 1]); }
  }

  lemma DecodedEntry(cfg: Config, s: State, p: ProcId, c: Commit)
    requires AtPc(s, p, Deserializing) && s.procs[p].found.Some? && Shows(s.procs[p].found.value, c)
    requires !s.procs[p].detached && s.procs[p].fallback.None?
    ensures var x, t := s.procs[p], DoDeserialize(cfg, s, p, true);
            if FreshnessOf(x.found.value, x.judgedAt) == Fresh then Hit(s, t, p, c)
            else c.state.ErrorState? || Revalidates(cfg, s, t, p, c)
  {
    hide FreshnessOf;
  }

  /** While a refresh is under way, whether it is detached and what it may fall back to do not change. */
  lemma PromiseKept(cfg: Config, s: State, a: Action, p: ProcId)
    requires Enabled(cfg, s, a) && Actor(a) == Some(p) && p < |s.procs| && Refreshing(s.procs[p].pc)
    ensures var t := Apply(cfg, s, a);
            p < |t.procs| && (t.procs[p].pc != Idle ==>
              t.procs[p].detached == s.procs[p].detached && t.procs[p].fallback == s.procs[p].fallback)
  {
    if LockStep(a) { PromiseInLock(cfg, s, a); }
    else if WaitStep(a) { PromiseInWait(cfg, s, a); }
    else if CheckStep(a) { PromiseInCheck(cfg, s, a); }
    else if WriteStep(a) { PromiseInWrite(cfg, s, a); }
  }

  predicate Keeps(s: State, t: State, p: ProcId) {
    p < |s.procs| && p < |t.procs| && (t.procs[p].pc != Idle ==>
      t.procs[p].detached == s.procs[p].detached && t.procs[p].fallback == s.procs[p].fallback)
  }

  lemma PromiseInLock(cfg: Config, s: State, a: Action)
    requires Enabled(cfg, s, a) && LockStep(a)
    ensures Keeps(s, Apply(cfg, s, a), a.p)
  {
  }

  lemma PromiseInWait(cfg: Config, s: State, a: Action)
    requires Enabled(cfg, s, a) && WaitStep(a)
    ensures Keeps(s, Apply(cfg, s, a), a.p)
  {
  }

  lemma PromiseInCheck(cfg: Config, s: State, a: Action)
    requires Enabled(cfg, s, a) && CheckStep(a)
    ensures Keeps(s, Apply(cfg, s, a), a.p)
  {
  }

  lemma PromiseInWrite(cfg: Config, s: State, a: Action)
    requires Enabled(cfg, s, a) && WriteStep(a)
    ensures Keeps(s, Apply(cfg, s, a), a.p)
  {
  }

  // ----- A whole hit

  /** What a process finds by reading, and by looking at it later, with others acting in between. */
  lemma LookUp(cfg: Config, n: nat, before: seq<Action>, p: ProcId, o1: seq<Action>) returns (s1: State)
    requires CanRun(cfg, Start(n), before) && AtPc(After(cfg, Start(n), before), p, Idle)
    requires After(cfg, Start(n), before).store.entry.Some? && Others(o1, p)
    requires CanRun(cfg, Start(n), before + [Read(p, true)] + o1)
    ensures s1 == After(cfg, Start(n), before + [Read(p, true)] + o1)
    ensures var s0 := After(cfg, Start(n), before);
            s0.hist.log != [] && s0.hist.log <= s1.hist.log && AtPc(s1, p, Judging)
            && s1.procs[p].found.Some? && s1.procs[p].seen.len == |s0.hist.log|
  {
    hide CanRun, After, Apply, Enabled, Inv;
    var s0 := After(cfg, Start(n), before);
    ReadFindsNewest(cfg, n, before, p);
    CanRead(cfg, s0, p);
    Extend(cfg, Start(n), before, Read(p, true));
    var t := Apply(cfg, s0, Read(p, true));
    Splits(cfg, Start(n), before + [Read(p, true)], o1);
    OthersLeave(cfg, t, o1, p);
    LogOnlyByCommit(cfg, s0, Read(p, true));
    LogLasts(cfg, t, o1);
    s1 := After(cfg, Start(n), before + [Read(p, true)] + o1);
  }

  lemma CanRead(cfg: Config, s: State, p: ProcId)
    ensures AtPc(s, p, Idle) ==> Enabled(cfg, s, Read(p, true))
  {
  }

  lemma {:induction false} Splits(cfg: Config, s: State, run: seq<Action>, more: seq<Action>)
    requires CanRun(cfg, s, run + more) && CanRun(cfg, s, run)
    ensures CanRun(cfg, After(cfg, s, run), more)
    ensures After(cfg, s, run + more) == After(cfg, After(cfg, s, run), more)
    decreases |run|
  {
    hide Apply, Enabled;
    if run == [] {
      assert run + more == more;
    } else {
      assert (run + more)[1..] == run[1..] + more;
      Splits(cfg, Apply(cfg, s, run[0]), run[1..], more);
    }
  }

  /**
   * A whole hit, with others acting at every await: a call that reads while an entry is stored, and judges it within
   * its lifetime, is answered with it and has taken no lock and computed nothing.
   */
  lemma FreshIsServed(cfg: Config, n: nat, before: seq<Action>, p: ProcId, o1: seq<Action>, o2: seq<Action>)
    requires CanRun(cfg, Start(n), before) && AtPc(After(cfg, Start(n), before), p, Idle)
    requires After(cfg, Start(n), before).store.entry.Some? && Others(o1, p) && Others(o2, p)
    requires var judging := before + [Read(p, true)] + o1;
             CanRun(cfg, Start(n), judging) && CanRun(cfg, Start(n), judging + [Judge(p)] + o2)
    ensures var log := After(cfg, Start(n), before).hist.log;
            var judging := before + [Read(p, true)] + o1;
            log != [] &&
            var c, s := log[|log| - 1], After(cfg, Start(n), judging + [Judge(p)] + o2);
            FreshAt(cfg, c, Time(judging)) ==>
              Enabled(cfg, s, Deserialize(p, true)) && Hit(s, Apply(cfg, s, Deserialize(p, true)), p, c)
  {
    hide CanRun, After, Apply, Enabled, FreshAt, StaleAt, Hit, Revalidates, Time;
    var judging := before + [Read(p, true)] + o1;
    var s1 := LookUp(cfg, n, before, p, o1);
    var log := After(cfg, Start(n), before).hist.log;
    var c := log[|log| - 1];
    if FreshAt(cfg, c, Time(judging)) {
      TimeIs(cfg, n, judging);
      JudgedByAge(cfg, n, judging, p);
      CanJudge(cfg, s1, p);
      Extend(cfg, Start(n), judging, Judge(p));
      var s2 := Apply(cfg, s1, Judge(p));
      Splits(cfg, Start(n), judging + [Judge(p)], o2);
      OthersLeave(cfg, s2, o2, p);
      LogLasts(cfg, s2, o2);
      ServedByAge(cfg, n, judging + [Judge(p)] + o2, p, true);
      CanDeserialize(cfg, After(cfg, Start(n), judging + [Judge(p)] + o2), p);
    }
  }

  lemma TimeIs(cfg: Config, n: nat, run: seq<Action>)
    requires CanRun(cfg, Start(n), run)
    ensures After(cfg, Start(n), run).clock == Time(run)
  {
    hide CanRun, After, Time, ProcOk;
    RunInv(cfg, n, run);
  }

  lemma CanJudge(cfg: Config, s: State, p: ProcId)
    ensures AtPc(s, p, Judging) ==> Enabled(cfg, s, Judge(p))
  {
  }

  lemma CanDeserialize(cfg: Config, s: State, p: ProcId)
    ensures AtPc(s, p, Deserializing) && s.procs[p].found.Some? ==> Enabled(cfg, s, Deserialize(p, true))
  {
  }

  // ----- Entries of peers

  /** The entry is that of a commit, which may be served as fresh. */
  predicate FreshCommit(cfg: Config, log: seq<Commit>, e: Entry, now: int) {
    exists k :: 0 <= k < |log| && Shows(e, log[k]) && FreshAt(cfg, log[k], now)
  }

  /** Under the lock what is stored is looked at again, and taken when it is fresh. */
  lemma RereadJudgedByAge(cfg: Config, n: nat, run: seq<Action>, p: ProcId)
    requires CanRun(cfg, Start(n), run) && AtPc(After(cfg, Start(n), run), p, JudgingReread)
    ensures var s := After(cfg, Start(n), run);
            var x, t := s.procs[p], Apply(cfg, s, JudgeReread(p));
            p < |t.procs| && t.store == s.store && t.hist == s.hist
            && t.procs[p].pc == if x.found.Some? && FreshCommit(cfg, s.hist.log, x.found.value, s.clock)
               then ReleasingEarly else Computing
  {
    hide CanRun, After, Inv, FreshnessOf, FreshCommit;
    RunOk(cfg, n, run);
    var s := After(cfg, Start(n), run);
    assert A.ProcOk(cfg, s.hist.log, s.procs[p]);
    if s.procs[p].found.Some? { FreshCommits(cfg, s.hist.log, s.procs[p].found.value, s.clock); }
  }

  /** So it is while waiting for the lock; otherwise the lock is tried again until the wait times out. */
  lemma PollJudgedByAge(cfg: Config, n: nat, run: seq<Action>, p: ProcId, timedOut: bool)
    requires CanRun(cfg, Start(n), run) && AtPc(After(cfg, Start(n), run), p, JudgingPoll)
    ensures var s := After(cfg, Start(n), run);
            var x, t := s.procs[p], Apply(cfg, s, JudgePoll(p, timedOut));
            p < |t.procs| && t.store == s.store
            && t.procs[p].pc == if x.found.Some? && FreshCommit(cfg, s.hist.log, x.found.value, s.clock)
               then PeerDeserializing
               else if !timedOut then Locking else if cfg.proceedOnTimeout then Computing else Idle
  {
    hide CanRun, After, Inv, FreshnessOf, FreshCommit;
    RunOk(cfg, n, run);
    var s := After(cfg, Start(n), run);
    assert A.ProcOk(cfg, s.hist.log, s.procs[p]);
    if s.procs[p].found.Some? { FreshCommits(cfg, s.hist.log, s.procs[p].found.value, s.clock); }
  }

  /** Looking again finds what is stored. */
  lemma LookingAgain(cfg: Config, s: State, p: ProcId)
    ensures Enabled(cfg, s, Reread(p, true)) ==>
              p < |Apply(cfg, s, Reread(p, true)).procs|
              && Apply(cfg, s, Reread(p, true)).procs[p].found == s.store.entry
    ensures Enabled(cfg, s, Poll(p, true)) ==>
              p < |Apply(cfg, s, Poll(p, true)).procs| && Apply(cfg, s, Poll(p, true)).procs[p].found == s.store.entry
  {
  }

  /** The call ends with what a peer stored, a cached error giving way to a stale value; detached, it ends silently. */
  predicate Ends(s: State, t: State, p: ProcId, c: Commit) {
    p < |s.procs| && p < |t.procs| && t.procs[p] == IDLE && t.store == s.store && t.hist.log == s.hist.log &&
    if s.procs[p].detached then t.hist.answers == s.hist.answers
    else
      |t.hist.answers| == |s.hist.answers| + 1 && t.hist.answers[..|s.hist.answers|] == s.hist.answers
      && if c.state.ErrorState? && s.procs[p].fallback.Some?
         then t.hist.answers[|s.hist.answers|] == Returned(s.procs[p].fallback.value)
         else Serves(t.hist.answers[|s.hist.answers|], c)
  }

  /** In every run what a peer stored is served, as its commit, within its lifetime. */
  lemma PeerServed(cfg: Config, n: nat, run: seq<Action>, p: ProcId)
    requires CanRun(cfg, Start(n), run) && AtPc(After(cfg, Start(n), run), p, PeerDeserializing)
    ensures var s := After(cfg, Start(n), run);
            var t := Apply(cfg, s, PeerDeserialize(p, true));
            exists k ::
              0 <= k < |s.hist.log| && FreshAt(cfg, s.hist.log[k], s.procs[p].judgedAt) && Ends(s, t, p, s.hist.log[k])
  {
    hide CanRun, After, Inv, FreshnessOf, FreshCommit, FreshAt, Ends;
    RunOk(cfg, n, run);
    var s := After(cfg, Start(n), run);
    assert A.ProcOk(cfg, s.hist.log, s.procs[p]);
    var e := s.procs[p].found.value;
    FreshCommits(cfg, s.hist.log, e, s.procs[p].judgedAt);
    var k := FreshCommitAt(cfg, s.hist.log, e, s.procs[p].judgedAt);
    PeerHit(cfg, s, p, s.hist.log[k]);
  }

  lemma FreshCommitAt(cfg: Config, log: seq<Commit>, e: Entry, now: int) returns (k: nat)
    requires FreshCommit(cfg, log, e, now)
    ensures k < |log| && Shows(e, log[k]) && FreshAt(cfg, log[k], now)
  {
    k :| 0 <= k < |log| && Shows(e, log[k]) && FreshAt(cfg, log[k], now);
  }

  lemma PeerHit(cfg: Config, s: State, p: ProcId, c: Commit)
    requires AtPc(s, p, PeerDeserializing) && s.procs[p].found.Some? && Shows(s.procs[p].found.value, c)
    ensures Ends(s, Apply(cfg, s, PeerDeserialize(p, true)), p, c)
  {
  }

  /** The same write is meant wherever an entry shows it. */
  lemma FreshCommits(cfg: Config, log: seq<Commit>, e: Entry, now: int)
    requires A.Committed(cfg, log, e)
    ensures FreshnessOf(e, now) == Fresh <==> FreshCommit(cfg, log, e, now)
  {
  }

  // ----- Answers

  /**
   * An exception; or a value that a computation of the run came to; or a cached value or null of a commit that was
   * within its lifetime or its stale window when judged, and that a process of the run had computed.
   */
  ghost predicate GoodAnswer(cfg: Config, run: seq<Action>, log: seq<Commit>, a: Answer) {
    match a
    case Threw => true
    case Returned(FromSource(v)) => exists i :: GivenAt(cfg, run, v, i)
    case Returned(FromCache(e, at)) => exists k, r, b, j, i :: ServedFrom(cfg, run, log, e, at, k, r, b, j, i)
  }

  ghost predicate ServedFrom(
    cfg: Config, run: seq<Action>, log: seq<Commit>, e: Entry, at: int, k: nat, r: nat, b: nat, j: nat, i: nat)
  {
    k < |log| && Shows(e, log[k]) && !log[k].state.ErrorState? && (FreshAt(cfg, log[k], at) || StaleAt(cfg, log[k], at))
    && ComputedAt(cfg, run, log[k], r, b, j, i)
  }

  /** Every answer of every run is good: what comes from the cache was computed, and is not too old. */
  lemma AnswersAreGood(cfg: Config, n: nat, run: seq<Action>, i: nat)
    requires CanRun(cfg, Start(n), run) && i < |After(cfg, Start(n), run).hist.answers|
    ensures GoodAnswer(cfg, run, After(cfg, Start(n), run).hist.log, After(cfg, Start(n), run).hist.answers[i])
  {
    hide CanRun, After, FreshAt, StaleAt, ComputedAt, GivenAt, FreshnessOf;
    RunOk(cfg, n, run);
    var s := After(cfg, Start(n), run);
    var a := s.hist.answers[i];
    assert A.AnswerOk(cfg, s.hist.log, a) && AnswerOk(cfg, run, a);
    if a.Returned? && a.source.FromCache? { CachedAnswer(cfg, n, run, a.source.entry, a.source.at); }
  }

  lemma CachedAnswer(cfg: Config, n: nat, run: seq<Action>, e: Entry, at: int)
    requires CanRun(cfg, Start(n), run) && A.SourceOk(cfg, After(cfg, Start(n), run).hist.log, FromCache(e, at))
    ensures exists k, r, b, j, i :: ServedFrom(cfg, run, After(cfg, Start(n), run).hist.log, e, at, k, r, b, j, i)
  {
    hide CanRun, After, FreshAt, StaleAt, ComputedAt, FreshnessOf;
    var log := After(cfg, Start(n), run).hist.log;
    var k :| 0 <= k < |log| && A.EntryOf(cfg, log[k], e);
    AgeDecides(cfg, log[k], e, at);
    CommitsAreComputed(cfg, n, run, k);
    var r, b, j, i :| ComputedAt(cfg, run, log[k], r, b, j, i);
    assert ServedFrom(cfg, run, log, e, at, k, r, b, j, i);
  }
}
