/**
 * One call of a cached function as the code runs it (src/runtime.ts): `resolveWithCache`, `refresh`,
 * `acquireLockOrWait` and `writeEntry` with their branches, their polling loop and their `finally`. At every
 * `await` other processes and the environment take any steps they can. Whatever happens, the execution is a run
 * of the step relation, so that everything proved of all runs holds of it.
 */
module RefreshCalls {
  import opened Wrappers
  import opened Entries
  import opened Refresh
  import RefreshAges
  import RefreshLocks

  // ----- What one step does to the process that takes it

  lemma ReadNext(cfg: Config, s: State, p: ProcId, ok: bool)
    requires Enabled(cfg, s, Read(p, ok))
    ensures var t := Apply(cfg, s, Read(p, ok));
            p < |t.procs| &&
            if !ok && !cfg.failOpenReads then t.procs[p].pc == Idle
            else t.procs[p].pc == Judging && !t.procs[p].detached
  {
  }

  lemma JudgeNext(cfg: Config, s: State, p: ProcId)
    requires Enabled(cfg, s, Judge(p))
    ensures var x, t := s.procs[p], Apply(cfg, s, Judge(p));
            p < |t.procs| &&
            if x.found.Some? && FreshnessOf(x.found.value, s.clock) != Expired
            then t.procs[p].pc == Deserializing && t.procs[p].found == x.found && t.procs[p].judgedAt == s.clock
                 && t.procs[p].detached == x.detached
            else t.procs[p].pc == if cfg.locks then Locking else Computing
  {
  }

  lemma DeserializeNext(cfg: Config, s: State, p: ProcId, ok: bool)
    requires Enabled(cfg, s, Deserialize(p, ok))
    ensures var x, t := s.procs[p], Apply(cfg, s, Deserialize(p, ok));
            p < |t.procs| && t.procs[p].pc ==
              if !ok then Dropping else if FreshnessOf(x.found.value, x.judgedAt) == Fresh then Idle
              else if cfg.locks then Locking else Computing
  {
  }

  lemma DropNext(cfg: Config, s: State, p: ProcId, ok: bool)
    requires Enabled(cfg, s, DropCorrupt(p, ok))
    ensures var t := Apply(cfg, s, DropCorrupt(p, ok));
            p < |t.procs| && t.procs[p].pc == if cfg.locks then Locking else Computing
  {
  }

  lemma TryLockNext(cfg: Config, s: State, p: ProcId, token: Token)
    requires Enabled(cfg, s, TryLock(p, token))
    ensures var t := Apply(cfg, s, TryLock(p, token));
            p < |t.procs| &&
            if s.store.lock.Some? && s.clock < s.store.lock.value.expiresAt then t.procs[p].pc == Polling
            else t.procs[p].pc == Rereading && t.procs[p].lease.token.Some?
  {
  }

  lemma RereadNext(cfg: Config, s: State, p: ProcId, ok: bool)
    requires Enabled(cfg, s, Reread(p, ok))
    ensures var t := Apply(cfg, s, Reread(p, ok));
            p < |t.procs| &&
            if !ok && !cfg.failOpenReads then t.procs[p].pc == Idle
            else t.procs[p].pc == JudgingReread && t.procs[p].lease.token.Some?
  {
  }

  lemma JudgeRereadNext(cfg: Config, s: State, p: ProcId)
    requires Enabled(cfg, s, JudgeReread(p)) && s.procs[p].lease.token.Some?
    ensures var x, t := s.procs[p], Apply(cfg, s, JudgeReread(p));
            p < |t.procs| && t.procs[p].lease.token.Some?
            && t.procs[p].pc == if x.found.Some? && FreshnessOf(x.found.value, s.clock) == Fresh then ReleasingEarly
               else Computing
  {
  }

  lemma ReleaseEarlyNext(cfg: Config, s: State, p: ProcId, ok: bool)
    requires Enabled(cfg, s, ReleaseEarly(p, ok))
    ensures var t := Apply(cfg, s, ReleaseEarly(p, ok)); p < |t.procs| && t.procs[p].pc == PeerDeserializing
  {
  }

  lemma PollNext(cfg: Config, s: State, p: ProcId, ok: bool)
    requires Enabled(cfg, s, Poll(p, ok))
    ensures var t := Apply(cfg, s, Poll(p, ok));
            p < |t.procs| && t.procs[p].pc == if !ok && !cfg.failOpenReads then Idle else JudgingPoll
  {
  }

  lemma JudgePollNext(cfg: Config, s: State, p: ProcId, timedOut: bool)
    requires Enabled(cfg, s, JudgePoll(p, timedOut))
    ensures var x, t := s.procs[p], Apply(cfg, s, JudgePoll(p, timedOut));
            p < |t.procs| && t.procs[p].pc ==
              if x.found.Some? && FreshnessOf(x.found.value, s.clock) == Fresh then PeerDeserializing
              else if !timedOut then Locking else if cfg.proceedOnTimeout then Computing else Idle
  {
  }

  lemma PeerNext(cfg: Config, s: State, p: ProcId, ok: bool)
    requires Enabled(cfg, s, PeerDeserialize(p, ok))
    ensures var t := Apply(cfg, s, PeerDeserialize(p, ok));
            p < |t.procs| && t.procs[p].pc == if ok then Idle else PeerDropping
  {
  }

  lemma ComputingNext(cfg: Config, s: State, p: ProcId, ok: bool)
    ensures Enabled(cfg, s, PeerDrop(p, ok)) ==>
              var t := Apply(cfg, s, PeerDrop(p, ok)); p < |t.procs| && t.procs[p].pc == Computing
    ensures Enabled(cfg, s, LockError(p)) ==>
              var t := Apply(cfg, s, LockError(p)); p < |t.procs| && t.procs[p].pc == Computing
  {
  }

  /** Ready for `writeEntry`, with nothing checked yet. */
  predicate Writing(cfg: Config, x: Proc, state: EntryState) {
    x.job.state == state && x.job.read == map[] && x.pc == if cfg.strict && cfg.tags != {} then Checking else Committing
  }

  /** After the computation: a value or an error is to be written, or nothing is. */
  predicate AfterError(cfg: Config, x: Proc, cacheable: bool) {
    if cfg.cacheErrors && cacheable then Writing(cfg, x, ErrorState) else x.pc == Releasing
  }

  lemma ComputeNext(cfg: Config, s: State, p: ProcId, result: SourceResult, aborted: bool)
    requires Enabled(cfg, s, Compute(p, result, aborted))
    ensures var t := Apply(cfg, s, Compute(p, result, aborted));
            p < |t.procs| &&
            match result
            case Produced(_) => if aborted then t.procs[p].pc == Releasing else Writing(cfg, t.procs[p], ValueState)
            case ProducedNull => if aborted || !cfg.cacheNull then t.procs[p].pc == Releasing
                else Writing(cfg, t.procs[p], NullState)
            case Failed => AfterError(cfg, t.procs[p], !aborted)
            case FailedByAbort => t.procs[p].pc == Releasing
  {
  }

  lemma CheckTagNext(cfg: Config, s: State, p: ProcId, tag: Tag)
    requires Enabled(cfg, s, CheckTag(p, tag))
    ensures var x, t := s.procs[p], Apply(cfg, s, CheckTag(p, tag));
            p < |t.procs| && t.procs[p].pc == Checking && t.procs[p].job.state == x.job.state
            && t.procs[p].job.read.Keys == x.job.read.Keys + {tag}
  {
  }

  lemma CheckedNext(cfg: Config, s: State, p: ProcId)
    ensures Enabled(cfg, s, CheckError(p)) ==>
              var t := Apply(cfg, s, CheckError(p));
              p < |t.procs| && t.procs[p].pc == Committing && t.procs[p].job.state == s.procs[p].job.state
    ensures Enabled(cfg, s, CheckDone(p)) ==>
              var t := Apply(cfg, s, CheckDone(p));
              p < |t.procs| && t.procs[p].job.state == s.procs[p].job.state
              && t.procs[p].pc == if Refused(s.procs[p]) then Releasing else Committing
  {
  }

  /** A failed write throws only under fail-closed writes, and never for an error entry. */
  predicate WriteThrows(cfg: Config, x: Proc, tooLarge: bool) {
    !tooLarge && cfg.failClosedWrites && !x.job.state.ErrorState?
  }

  lemma WriteErrorNext(cfg: Config, s: State, p: ProcId, tooLarge: bool, aborted: bool)
    requires p < |s.procs|
    ensures var t := DoWriteError(cfg, s, p, tooLarge, aborted);
            p < |t.procs| &&
            if WriteThrows(cfg, s.procs[p], tooLarge) then AfterError(cfg, t.procs[p], !aborted)
                else t.procs[p].pc == Releasing
  {
  }

  lemma CommitNext(cfg: Config, s: State, p: ProcId)
    requires Enabled(cfg, s, CompareAndSet(p))
    ensures var t := Apply(cfg, s, CompareAndSet(p)); p < |t.procs| && t.procs[p].pc == Releasing
  {
  }

  lemma ReleaseNext(cfg: Config, s: State, p: ProcId, ok: bool)
    requires Enabled(cfg, s, Release(p, ok))
    ensures var t := Apply(cfg, s, Release(p, ok)); p < |t.procs| && t.procs[p].pc == Idle
  {
  }

  // ----- Answers

  /** A call under way owes its caller an answer, unless it runs on in the background. */
  function OwedBy(x: Proc): int {
    if x.pc == Idle || x.detached then 0 else 1
  }

  /** Reading begins a call; every other step of a process gives an answer exactly when it stops owing one. */
  predicate Settled(s: State, t: State, a: Action)
    requires Actor(a).Some?
  {
    var p := Actor(a).value;
    p < |s.procs| == |t.procs| &&
    |t.hist.answers| + OwedBy(t.procs[p]) == |s.hist.answers| + OwedBy(s.procs[p]) + if a.Read? then 1 else 0
  }

  /** A found entry is decoded before anything goes on in the background. */
  predicate Attached(s: State, a: Action) {
    a.Deserialize? && a.p < |s.procs| ==> !s.procs[a.p].detached
  }

  lemma CallSettled(cfg: Config, s: State, a: Action)
    requires Enabled(cfg, s, a) && (a.Read? || a.Judge? || a.DropCorrupt? || a.Release?)
    ensures Settled(s, Apply(cfg, s, a), a)
  {
  }

  lemma DecodeSettled(cfg: Config, s: State, a: Action)
    requires Enabled(cfg, s, a) && a.Deserialize? && !s.procs[a.p].detached
    ensures Settled(s, Apply(cfg, s, a), a)
  {
  }

  lemma LockSettled(cfg: Config, s: State, a: Action)
    requires Enabled(cfg, s, a) && LockStep(a)
    ensures Settled(s, Apply(cfg, s, a), a)
  {
  }

  lemma WaitSettled(cfg: Config, s: State, a: Action)
    requires Enabled(cfg, s, a) && WaitStep(a)
    ensures Settled(s, Apply(cfg, s, a), a)
  {
  }

  lemma CheckSettled(cfg: Config, s: State, a: Action)
    requires Enabled(cfg, s, a) && CheckStep(a)
    ensures Settled(s, Apply(cfg, s, a), a)
  {
  }

  lemma WriteSettled(cfg: Config, s: State, a: Action)
    requires Enabled(cfg, s, a) && WriteStep(a)
    ensures Settled(s, Apply(cfg, s, a), a)
  {
  }

  lemma StepSettled(cfg: Config, s: State, a: Action)
    requires Enabled(cfg, s, a) && Actor(a).Some? && Attached(s, a)
    ensures Settled(s, Apply(cfg, s, a), a)
  {
    hide Apply, Settled;
    if a.Deserialize? { DecodeSettled(cfg, s, a); }
    else if CallStep(a) { CallSettled(cfg, s, a); }
    else if LockStep(a) { LockSettled(cfg, s, a); }
    else if WaitStep(a) { WaitSettled(cfg, s, a); }
    else if CheckStep(a) { CheckSettled(cfg, s, a); }
    else { WriteSettled(cfg, s, a); }
  }

  // ----- Tokens

  /** `randomToken`: a token nobody has used. */
  method FreshToken(used: set<Token>) returns (token: Token)
    ensures token !in used
  {
    token := 0;
    var left := used;
    while left != {}
      invariant left <= used && forall u :: u in used && u !in left ==> u < token
      decreases left
    {
      var u :| u in left;
      left := left - {u};
      if u >= token { token := u + 1; }
    }
  }

  // ----- The call

  /** How `acquireLockOrWait` ends: compute, with or without a lock; take what a peer stored; or an exception. */
  datatype Attempt = Proceed | PeerEntry | GaveUp

  class Call {
    const cfg: Config
    const n: nat
    const p: ProcId
    /** The storage and all processes, of which this call is one. */
    var state: State
    /** The steps taken so far by everyone. */
    ghost var run: seq<Action>
    /** How many answers the steps of this process have given. */
    ghost var given: int

    ghost predicate Valid()
      reads this
    {
      p < n && CanRun(cfg, Start(n), run) && state == After(cfg, Start(n), run) && |state.procs| == n
    }

    function Pc(): Pc
      reads this
      requires p < |state.procs|
    {
      state.procs[p].pc
    }

    /** Answers given and still owed. */
    ghost function Answers(): int
      reads this
      requires p < |state.procs|
    {
      given + OwedBy(state.procs[p])
    }

    constructor (c: Config, processes: nat, me: ProcId)
      requires me < processes
      ensures Valid() && cfg == c && n == processes && p == me && Pc() == Idle && given == 0
    {
      cfg, n, p := c, processes, me;
      state, run, given := Start(processes), [], 0;
    }

    /** Anything that others do before the call goes on. */
    method Await()
      requires Valid()
      modifies this
      ensures Valid() && state.procs[p] == old(state.procs[p]) && given == old(given)
    {
      ghost var before := run;
      var start := state;
      assert CanRun(cfg, start, []) && Others([], p);
      var more: seq<Action> :| CanRun(cfg, start, more) && Others(more, p);
      OthersLeave(cfg, start, more, p);
      Continue(cfg, Start(n), before, more);
      state := After(cfg, start, more);
      run := before + more;
    }

    /** One step of this call. */
    method Take(a: Action)
      requires Valid() && Enabled(cfg, state, a) && Actor(a) == Some(p) && Attached(state, a)
      modifies this
      ensures Valid() && state == Apply(cfg, old(state), a)
      ensures Answers() == old(Answers()) + if a.Read? then 1 else 0
    {
      hide Apply, Enabled;
      StepSettled(cfg, state, a);
      given := given + |Apply(cfg, state, a).hist.answers| - |state.hist.answers|;
      Extend(cfg, Start(n), run, a);
      OnlyActorMoves(cfg, state, a);
      state := Apply(cfg, state, a);
      run := run + [a];
    }

    /** A whole call: it ends without a lock, it has given exactly one answer, and all answers so far are good. */
    method Execute()
      requires Valid() && Pc() == Idle
      modifies this
      ensures Valid() && Pc() == Idle && state.procs[p].lease.token.None?
      ensures given == old(given) + 1
      ensures forall i :: 0 <= i < |state.hist.answers| ==>
                RefreshAges.GoodAnswer(cfg, run, state.hist.log, state.hist.answers[i])
    {
      hide Apply, CanRun, After;
      Resolve();
      RefreshLocks.EveryLockReleased(cfg, n, run, 0);
      forall i | 0 <= i < |state.hist.answers|
        ensures RefreshAges.GoodAnswer(cfg, run, state.hist.log, state.hist.answers[i])
      {
        RefreshAges.AnswersAreGood(cfg, n, run, i);
      }
    }

    /** `resolveWithCache` */
    method Resolve()
      requires Valid() && Pc() == Idle
      modifies this
      ensures Valid() && Pc() == Idle && Answers() == old(Answers()) + 1
    {
      hide Apply;
      Await();
      var ok: bool := *;
      ReadNext(cfg, state, p, ok);
      Take(Read(p, ok));
      if !ok && !cfg.failOpenReads {
        return;
      }
      Await();
      var entry, now := state.procs[p].found, state.clock;
      JudgeNext(cfg, state, p);
      Take(Judge(p));
      if entry.Some? {
        var freshness := FreshnessOf(entry.value, now);
        if freshness != Expired {
          var decoded := DecodeFound();
          if decoded && freshness == Fresh {
            return;
          }
        }
      }
      RefreshEntry();
    }

    /** The found value is served, fresh or stale, unless it does not decode; then it is deleted. */
    method DecodeFound() returns (decoded: bool)
      requires Valid() && Pc() == Deserializing && state.procs[p].found.Some? && !state.procs[p].detached
      modifies this
      ensures Valid() && Answers() == old(Answers())
      ensures Pc() ==
              if decoded && FreshnessOf(old(state.procs[p].found.value), old(state.procs[p].judgedAt)) == Fresh
              then Idle
                      else if cfg.locks then Locking else Computing
    {
      hide Apply;
      Await();
      decoded := *;
      DeserializeNext(cfg, state, p, decoded);
      Take(Deserialize(p, decoded));
      if !decoded {
        Await();
        var deleted: bool := *;
        DropNext(cfg, state, p, deleted);
        Take(DropCorrupt(p, deleted));
      }
    }

    /** `acquireLockOrWait`; `polls` is how often the peer is waited for before the deadline. */
    method AcquireLockOrWait(polls: nat) returns (attempt: Attempt)
      requires Valid() && Pc() == if cfg.locks then Locking else Computing
      modifies this
      ensures Valid() && Answers() == old(Answers())
      ensures Pc() == match attempt case Proceed => Computing case PeerEntry => PeerDeserializing case GaveUp => Idle
    {
      hide Apply;
      if !cfg.locks {
        return Proceed;
      }
      var left := polls;
      while true
        invariant Valid() && Pc() == Locking && Answers() == old(Answers())
        decreases left
      {
        Await();
        var failed: bool := *;
        if failed {
          ComputingNext(cfg, state, p, true);
          Take(LockError(p));
          return Proceed;
        }
        var token := FreshToken(state.hist.used);
        var free := state.store.lock.None? || state.clock >= state.store.lock.value.expiresAt;
        TryLockNext(cfg, state, p, token);
        Take(TryLock(p, token));
        if free {
          attempt := CheckUnderLock();
          return;
        }
        var ended, outcome := WaitForPeer(left == 0);
        if ended {
          return outcome;
        }
        left := left - 1;
      }
    }

    /** Without the lock: a look at what the peer stored, after the polling interval. */
    method WaitForPeer(timedOut: bool) returns (ended: bool, attempt: Attempt)
      requires Valid() && Pc() == Polling
      modifies this
      ensures Valid() && Answers() == old(Answers())
      ensures timedOut ==> ended
      ensures Pc() == if !ended then Locking
                      else match attempt
                           case Proceed => Computing
                           case PeerEntry => PeerDeserializing
                           case GaveUp => Idle
    {
      hide Apply;
      ended, attempt := true, GaveUp;
      Await();
      var ok: bool := *;
      PollNext(cfg, state, p, ok);
      Take(Poll(p, ok));
      if !ok && !cfg.failOpenReads {
        return;
      }
      Await();
      var entry := state.procs[p].found;
      var fromPeer := entry.Some? && FreshnessOf(entry.value, state.clock) == Fresh;
      JudgePollNext(cfg, state, p, timedOut);
      Take(JudgePoll(p, timedOut));
      if fromPeer {
        attempt := PeerEntry;
      } else if !timedOut {
        ended := false;
      } else if cfg.proceedOnTimeout {
        attempt := Proceed;
      }
    }

    /** With the lock: a peer may have stored the entry meanwhile. */
    method CheckUnderLock() returns (attempt: Attempt)
      requires Valid() && Pc() == Rereading && state.procs[p].lease.token.Some?
      modifies this
      ensures Valid() && Answers() == old(Answers())
      ensures Pc() == match attempt case Proceed => Computing case PeerEntry => PeerDeserializing case GaveUp => Idle
    {
      hide Apply, CanRun, After, FreshnessOf;
      Await();
      var ok: bool := *;
      RereadNext(cfg, state, p, ok);
      Take(Reread(p, ok));
      if !ok && !cfg.failOpenReads {
        return GaveUp;
      }
      Await();
      var entry := state.procs[p].found;
      var fromPeer := entry.Some? && FreshnessOf(entry.value, state.clock) == Fresh;
      JudgeRereadNext(cfg, state, p);
      Take(JudgeReread(p));
      if !fromPeer {
        return Proceed;
      }
      Await();
      var released: bool := *;
      ReleaseEarlyNext(cfg, state, p, released);
      Take(ReleaseEarly(p, released));
      attempt := PeerEntry;
    }

    /** `refresh` */
    method RefreshEntry()
      requires Valid() && Pc() == if cfg.locks then Locking else Computing
      modifies this
      ensures Valid() && Pc() == Idle && Answers() == old(Answers())
    {
      hide Apply;
      var polls: nat := *;
      var attempt := AcquireLockOrWait(polls);
      if attempt.GaveUp? {
        return;
      }
      if attempt.PeerEntry? {
        var served := TakePeerEntry();
        if served {
          return;
        }
      }
      ComputeAndWrite();
      Await();
      var ok: bool := *;
      ReleaseNext(cfg, state, p, ok);
      Take(Release(p, ok));
    }

    /** What a peer stored is served, unless it does not decode; then it is deleted. */
    method TakePeerEntry() returns (served: bool)
      requires Valid() && Pc() == PeerDeserializing
      modifies this
      ensures Valid() && Answers() == old(Answers()) && Pc() == if served then Idle else Computing
    {
      hide Apply;
      Await();
      served := *;
      PeerNext(cfg, state, p, served);
      Take(PeerDeserialize(p, served));
      if served {
        return;
      }
      Await();
      var deleted: bool := *;
      ComputingNext(cfg, state, p, deleted);
      Take(PeerDrop(p, deleted));
    }

    /** The body of the `try` in `refresh` and its `catch`. */
    method ComputeAndWrite()
      requires Valid() && Pc() == Computing
      modifies this
      ensures Valid() && Answers() == old(Answers()) && Pc() == Releasing
    {
      hide Apply;
      Await();
      var result: SourceResult, aborted: bool := *, *;
      ComputeNext(cfg, state, p, result, aborted);
      Take(Compute(p, result, aborted));
      if result.FailedByAbort? {
        return;
      }
      if !result.Failed? {
        if aborted || (result.ProducedNull? && !cfg.cacheNull) {
          return;
        }
        var threw, late := WriteEntry(if result.Produced? then ValueState else NullState);
        if !threw || !cfg.cacheErrors || late {
          return;
        }
      } else if !cfg.cacheErrors || aborted {
        return;
      }
      var swallowed, _ := WriteEntry(ErrorState);
    }

    /** `writeEntry`: whether it threw, and whether the computation had been aborted by then. */
    method WriteEntry(entryState: EntryState) returns (threw: bool, aborted: bool)
      requires Valid() && Writing(cfg, state.procs[p], entryState)
      modifies this
      ensures Valid() && Answers() == old(Answers())
      ensures threw ==> !entryState.ErrorState? && AfterError(cfg, state.procs[p], !aborted)
      ensures !threw ==> Pc() == Releasing
    {
      hide Apply;
      threw, aborted := false, *;
      if cfg.strict && cfg.tags != {} {
        var refused := CheckTombstones();
        if refused {
          return;
        }
      }
      threw := PrepareAndCommit(entryState, aborted);
    }

    /** Preparing the bytes and the compare-and-set, either of which can fail. */
    method PrepareAndCommit(entryState: EntryState, aborted: bool) returns (threw: bool)
      requires Valid() && Pc() == Committing && state.procs[p].job.state == entryState
      modifies this
      ensures Valid() && Answers() == old(Answers())
      ensures threw ==> !entryState.ErrorState? && AfterError(cfg, state.procs[p], !aborted)
      ensures !threw ==> Pc() == Releasing
    {
      hide Apply, DoWriteError, AfterError;
      Await();
      var failed: bool, tooLarge: bool := *, *;
      if failed {
        threw := WriteThrows(cfg, state.procs[p], tooLarge);
        WriteErrorNext(cfg, state, p, tooLarge, aborted);
        PrepareIs(cfg, state, p, tooLarge, aborted);
        Take(PrepareError(p, tooLarge, aborted));
        return;
      }
      var lost: bool := *;
      if lost {
        threw := WriteThrows(cfg, state.procs[p], false);
        WriteErrorNext(cfg, state, p, false, aborted);
        PrepareIs(cfg, state, p, false, aborted);
        Take(CommitError(p, aborted));
        return;
      }
      CommitNext(cfg, state, p);
      Take(CompareAndSet(p));
      threw := false;
    }

    /** `readTagTombstones`: the tags are read in any order; an unreadable tombstone ends the check. */
    method CheckTombstones() returns (refused: bool)
      requires Valid() && Pc() == Checking && state.procs[p].job.read == map[]
      modifies this
      ensures Valid() && Answers() == old(Answers()) && state.procs[p].job.state == old(state.procs[p].job.state)
      ensures Pc() == if refused then Releasing else Committing
    {
      hide Apply;
      var left := cfg.tags;
      while left != {}
        invariant Valid() && Pc() == Checking && left <= cfg.tags && Answers() == old(Answers())
        invariant state.procs[p].job.read.Keys == cfg.tags - left
        invariant state.procs[p].job.state == old(state.procs[p].job.state)
        decreases left
      {
        Await();
        var tag :| tag in left;
        var failed: bool := *;
        if failed {
          CheckedNext(cfg, state, p);
          Take(CheckError(p));
          return false;
        }
        CheckTagNext(cfg, state, p, tag);
        Take(CheckTag(p, tag));
        left := left - {tag};
      }
      refused := Refused(state.procs[p]);
      CheckedNext(cfg, state, p);
      Take(CheckDone(p));
    }
  }

  lemma PrepareIs(cfg: Config, s: State, p: ProcId, tooLarge: bool, aborted: bool)
    ensures Enabled(cfg, s, PrepareError(p, tooLarge, aborted)) ==>
              Apply(cfg, s, PrepareError(p, tooLarge, aborted)) == DoWriteError(cfg, s, p, tooLarge, aborted)
    ensures Enabled(cfg, s, CommitError(p, aborted)) ==>
              Apply(cfg, s, CommitError(p, aborted)) == DoWriteError(cfg, s, p, false, aborted)
  {
  }
}
