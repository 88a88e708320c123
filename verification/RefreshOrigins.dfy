/**
 * Where cached values and answers come from, in terms of the actions of a run alone: what each process last
 * computed, whether its write failed, and when.
 */
module RefreshOrigins {
  import opened Wrappers
  import opened Entries
  import opened Refresh

  // ----- Read off the actions

  /** The clock readings do not go back: every run takes the time its ticks take. */
  function Time(run: seq<Action>): int {
    if run == [] then 0
    else
      var a := run[|run| - 1];
      Time(run[..|run| - 1]) + if a.Tick? then a.dt else 0
  }

  /** A finished computation, whether its signal had fired by then, and the time. */
  datatype Made = Made(result: SourceResult, aborted: bool, at: int)

  /** What the process has computed since it last read the key. */
  function LastMade(run: seq<Action>, p: ProcId): Option<Made> {
    if run == [] then None
    else
      var front, a := run[..|run| - 1], run[|run| - 1];
      if a.Compute? && a.p == p then Some(Made(a.result, a.aborted, Time(front)))
      else if a.Read? && a.p == p then None
      else LastMade(front, p)
  }

  datatype Failure = Failure(aborted: bool, at: int)

  /** The first failure, other than an oversized value, of the write that followed the computation. */
  function WriteFailure(run: seq<Action>, p: ProcId): Option<Failure> {
    if run == [] then None
    else
      var front, a := run[..|run| - 1], run[|run| - 1];
      if (a.Compute? || a.Read?) && a.p == p then None
      else if ((a.PrepareError? && !a.tooLarge) || a.CommitError?) && a.p == p && WriteFailure(front, p).None? then
        Some(Failure(a.aborted, Time(front)))
      else WriteFailure(front, p)
  }

  predicate Turns(a: Action, p: ProcId) {
    (a.Judge? || a.Deserialize? || a.DropCorrupt?) && a.p == p
  }

  /** When the process, since it read the key, last turned from what it found to refreshing. */
  function Began(run: seq<Action>, p: ProcId): Option<int> {
    if run == [] then None
    else
      var front, a := run[..|run| - 1], run[|run| - 1];
      if Turns(a, p) then Some(Time(front)) else if a.Read? && a.p == p then None else Began(front, p)
  }

  /** The process has read the key. */
  predicate HasRead(run: seq<Action>, p: ProcId) {
    exists i :: 0 <= i < |run| && run[i].Read? && run[i].p == p
  }

  // ----- What may be cached, and what is answered

  /** A value or null as computed by a process that was not aborted, or an error of the computation or the write. */
  predicate Caches(
    cfg: Config, made: Option<Made>, failure: Option<Failure>, state: EntryState, payload: nat, at: int)
  {
    made.Some? &&
    match state
    case ValueState => made.value == Made(Produced(payload), false, at) && failure.None?
    case NullState => made.value == Made(ProducedNull, false, at) && failure.None? && cfg.cacheNull && payload == 0
    case ErrorState =>
      cfg.cacheErrors
      && if failure.None? then made.value == Made(Failed, false, at)
         else cfg.failClosedWrites && failure.value == Failure(false, at)
              && (made.value.result.Produced? || made.value.result.ProducedNull?)
  }

  /** What the computation comes to for the caller: its value, unless it or a fail-closed write threw. */
  function Verdict(cfg: Config, made: Made, failure: Option<Failure>): Answer {
    match made.result
    case Produced(v) => if failure.Some? && cfg.failClosedWrites then Threw else Returned(FromSource(v))
    case ProducedNull => if failure.Some? && cfg.failClosedWrites then Threw else Returned(FromSource(0))
    case Failed => Threw
    case FailedByAbort => Threw
  }

  predicate Refreshing(pc: Pc) {
    pc != Idle && pc != Judging && pc != Deserializing && pc != Dropping
  }

  predicate ProcOk(cfg: Config, run: seq<Action>, p: ProcId, x: Proc) {
    && (x.pc != Idle ==> HasRead(run, p))
    && (x.pc != Idle && !Refreshing(x.pc) ==> !x.detached && x.fallback.None?)
    && (Refreshing(x.pc) ==> Began(run, p) == Some(x.startedAt))
    && (x.pc == Checking || x.pc == Committing ==>
          Caches(cfg, LastMade(run, p), WriteFailure(run, p), x.job.state, x.job.payload, x.job.now))
    && (x.pc == Checking || x.pc == Committing || x.pc == Releasing ==>
          LastMade(run, p).Some? && x.answer == Verdict(cfg, LastMade(run, p).value, WriteFailure(run, p)))
    && (x.fallback.Some? ==> x.fallback.value.FromCache?)
  }

  /** The commit was made at a point of the run, of what its writer had computed by then. */
  predicate MadeAt(cfg: Config, run: seq<Action>, c: Commit, i: nat) {
    i < |run| && run[i] == CompareAndSet(c.writer) && Began(run[..i], c.writer) == Some(c.startedAt)
    && Caches(cfg, LastMade(run[..i], c.writer), WriteFailure(run[..i], c.writer), c.state, c.payload, c.at)
  }

  ghost predicate Justified(cfg: Config, run: seq<Action>, c: Commit) {
    exists i :: MadeAt(cfg, run, c, i)
  }

  /** An answer that is not from the cache was given at a release, and is what the computation came to. */
  predicate GivenAt(cfg: Config, run: seq<Action>, v: nat, i: nat) {
    i < |run| && run[i].Release? && LastMade(run[..i], run[i].p).Some?
    && Returned(FromSource(v)) == Verdict(cfg, LastMade(run[..i], run[i].p).value, WriteFailure(run[..i], run[i].p))
  }

  ghost predicate AnswerOk(cfg: Config, run: seq<Action>, a: Answer) {
    a.Returned? && a.source.FromSource? ==> exists i :: GivenAt(cfg, run, a.source.payload, i)
  }

  ghost predicate Inv(cfg: Config, run: seq<Action>, s: State) {
    && s.clock == Time(run)
    && (forall p :: 0 <= p < |s.procs| ==> ProcOk(cfg, run, p, s.procs[p]))
    && (forall k :: 0 <= k < |s.hist.log| ==> Justified(cfg, run, s.hist.log[k]))
    && (forall k :: 0 <= k < |s.hist.answers| ==> AnswerOk(cfg, run, s.hist.answers[k]))
  }

  // ----- One step

  lemma Appended(run: seq<Action>, a: Action, p: ProcId)
    ensures Time(run + [a]) == Time(run) + if a.Tick? then a.dt else 0
    ensures LastMade(run + [a], p) ==
            if a.Compute? && a.p == p then Some(Made(a.result, a.aborted, Time(run)))
            else if a.Read? && a.p == p then None else LastMade(run, p)
    ensures WriteFailure(run + [a], p) ==
            if (a.Compute? || a.Read?) && a.p == p then None
            else if ((a.PrepareError? && !a.tooLarge) || a.CommitError?) && a.p == p && WriteFailure(run, p).None?
            then Some(Failure(a.aborted, Time(run)))
            else WriteFailure(run, p)
    ensures Began(run + [a], p) ==
            if Turns(a, p) then Some(Time(run)) else if a.Read? && a.p == p then None else Began(run, p)
    ensures HasRead(run + [a], p) <==> HasRead(run, p) || (a.Read? && a.p == p)
  {
    assert (run + [a])[..|run|] == run && (run + [a])[|run|] == a;
  }

  lemma OthersKeep(cfg: Config, run: seq<Action>, a: Action, p: ProcId, x: Proc)
    requires ProcOk(cfg, run, p, x) && Actor(a) != Some(p)
    ensures ProcOk(cfg, run + [a], p, x)
  {
    hide HasRead, Time, LastMade, WriteFailure, Began;
    Appended(run, a, p);
  }

  /** What was justified stays so. */
  lemma Stays(cfg: Config, run: seq<Action>, a: Action)
    ensures forall c, i :: MadeAt(cfg, run, c, i) ==> MadeAt(cfg, run + [a], c, i)
    ensures forall v, i :: GivenAt(cfg, run, v, i) ==> GivenAt(cfg, run + [a], v, i)
  {
    hide Caches, Verdict, LastMade, WriteFailure, Began;
    forall i | 0 <= i < |run| ensures (run + [a])[..i] == run[..i] && (run + [a])[i] == run[i] {}
  }

  lemma AnswerStays(cfg: Config, run: seq<Action>, a: Action, answer: Answer)
    requires AnswerOk(cfg, run, answer)
    ensures AnswerOk(cfg, run + [a], answer)
  {
    hide GivenAt;
    Stays(cfg, run, a);
    if answer.Returned? && answer.source.FromSource? {
      var i :| GivenAt(cfg, run, answer.source.payload, i);
      assert GivenAt(cfg, run + [a], answer.source.payload, i);
    }
  }

  /** A step as far as its actor is concerned: what it leaves behind, and the answer it may give. */
  ghost predicate Sound(cfg: Config, run: seq<Action>, s: State, a: Action, t: State) {
    && Actor(a).Some? && Actor(a).value < |t.procs|
    && t.clock == s.clock && ProcOk(cfg, run + [a], Actor(a).value, t.procs[Actor(a).value])
    && t.hist.log == s.hist.log
    && (t.hist.answers == s.hist.answers
        || (|t.hist.answers| == |s.hist.answers| + 1 && t.hist.answers[..|s.hist.answers|] == s.hist.answers
            && (var answer := t.hist.answers[|s.hist.answers|];
                answer.Returned? && answer.source.FromSource? ==>
                  GivenAt(cfg, run + [a], answer.source.payload, |run|))))
  }

  lemma SoundKeeps(cfg: Config, run: seq<Action>, s: State, a: Action, t: State)
    requires Inv(cfg, run, s) && OnlyActor(s, t, a) && Sound(cfg, run, s, a, t)
    ensures Inv(cfg, run + [a], t)
  {
    hide ProcOk, MadeAt, GivenAt, Time;
    Stays(cfg, run, a);
    Appended(run, a, 0);
    forall p | 0 <= p < |t.procs| ensures ProcOk(cfg, run + [a], p, t.procs[p]) {
      if Actor(a) != Some(p) { OthersKeep(cfg, run, a, p, s.procs[p]); }
    }
    forall k | 0 <= k < |t.hist.log| ensures Justified(cfg, run + [a], t.hist.log[k]) {
      assert Justified(cfg, run, s.hist.log[k]);
    }
    forall k | 0 <= k < |t.hist.answers| ensures AnswerOk(cfg, run + [a], t.hist.answers[k]) {
      if k < |s.hist.answers| {
        assert t.hist.answers[k] == s.hist.answers[k];
        AnswerStays(cfg, run, a, s.hist.answers[k]);
      } else {
        assert t.hist.answers[k].Returned? && t.hist.answers[k].source.FromSource? ==>
            GivenAt(cfg, run + [a], t.hist.answers[k].source.payload, |run|);
      }
    }
  }

  lemma EnvironmentKeeps(cfg: Config, run: seq<Action>, s: State, a: Action)
    requires Inv(cfg, run, s) && Enabled(cfg, s, a) && EnvironmentStep(a)
    ensures Inv(cfg, run + [a], Apply(cfg, s, a))
  {
    hide ProcOk, MadeAt, GivenAt, Time;
    var t := Apply(cfg, s, a);
    EnvironmentLeaves(cfg, s, a);
    Stays(cfg, run, a);
    Appended(run, a, 0);
    forall p | 0 <= p < |t.procs| ensures ProcOk(cfg, run + [a], p, t.procs[p]) {
      OthersKeep(cfg, run, a, p, s.procs[p]);
    }
    forall k | 0 <= k < |t.hist.log| ensures Justified(cfg, run + [a], t.hist.log[k]) {
      assert Justified(cfg, run, s.hist.log[k]);
    }
    forall k | 0 <= k < |t.hist.answers| ensures AnswerOk(cfg, run + [a], t.hist.answers[k]) {
      AnswerStays(cfg, run, a, s.hist.answers[k]);
    }
  }

  lemma EnvironmentLeaves(cfg: Config, s: State, a: Action)
    requires Enabled(cfg, s, a) && EnvironmentStep(a)
    ensures var t := Apply(cfg, s, a);
            t.procs == s.procs && t.hist.log == s.hist.log && t.hist.answers == s.hist.answers
            && t.clock == s.clock + if a.Tick? then a.dt else 0
  {
  }

  /** The process that acts is in order, and the clock is that of the run. */
  predicate Ready(cfg: Config, run: seq<Action>, s: State, a: Action) {
    Actor(a).Some? && Actor(a).value < |s.procs| && ProcOk(cfg, run, Actor(a).value, s.procs[Actor(a).value])
    && s.clock == Time(run)
  }

  lemma ReadSound(cfg: Config, run: seq<Action>, s: State, a: Action)
    requires Enabled(cfg, s, a) && a.Read? && Ready(cfg, run, s, a)
    ensures Sound(cfg, run, s, a, Apply(cfg, s, a))
  {
    hide HasRead, Time, LastMade, WriteFailure, Began, Caches, Verdict, GivenAt;
    Appended(run, a, a.p);
  }

  lemma JudgeSound(cfg: Config, run: seq<Action>, s: State, a: Action)
    requires Enabled(cfg, s, a) && (a.Judge? || a.DropCorrupt?) && Ready(cfg, run, s, a)
    ensures Sound(cfg, run, s, a, Apply(cfg, s, a))
  {
    hide HasRead, Time, LastMade, WriteFailure, Began, Caches, Verdict, GivenAt;
    Appended(run, a, a.p);
  }

  lemma DeserializeSound(cfg: Config, run: seq<Action>, s: State, a: Action)
    requires Enabled(cfg, s, a) && a.Deserialize? && Ready(cfg, run, s, a)
    ensures Sound(cfg, run, s, a, Apply(cfg, s, a))
  {
    hide HasRead, Time, LastMade, WriteFailure, Began, Caches, Verdict, GivenAt;
    Appended(run, a, a.p);
  }

  lemma TryLockSound(cfg: Config, run: seq<Action>, s: State, a: Action)
    requires Enabled(cfg, s, a) && (a.TryLock? || a.LockError?) && Ready(cfg, run, s, a)
    ensures Sound(cfg, run, s, a, Apply(cfg, s, a))
  {
    hide HasRead, Time, LastMade, WriteFailure, Began, Caches, Verdict, GivenAt;
    Appended(run, a, a.p);
  }

  lemma RereadSound(cfg: Config, run: seq<Action>, s: State, a: Action)
    requires Enabled(cfg, s, a) && a.Reread? && Ready(cfg, run, s, a)
    ensures Sound(cfg, run, s, a, Apply(cfg, s, a))
  {
    hide HasRead, Time, LastMade, WriteFailure, Began, Caches, Verdict, GivenAt;
    Appended(run, a, a.p);
  }

  lemma JudgeRereadSound(cfg: Config, run: seq<Action>, s: State, a: Action)
    requires Enabled(cfg, s, a) && (a.JudgeReread? || a.ReleaseEarly?) && Ready(cfg, run, s, a)
    ensures Sound(cfg, run, s, a, Apply(cfg, s, a))
  {
    hide HasRead, Time, LastMade, WriteFailure, Began, Caches, Verdict, GivenAt;
    Appended(run, a, a.p);
  }

  lemma PollSound(cfg: Config, run: seq<Action>, s: State, a: Action)
    requires Enabled(cfg, s, a) && (a.Poll? || a.JudgePoll?) && Ready(cfg, run, s, a)
    ensures Sound(cfg, run, s, a, Apply(cfg, s, a))
  {
    hide HasRead, Time, LastMade, WriteFailure, Began, Caches, Verdict, GivenAt;
    Appended(run, a, a.p);
  }

  lemma PeerSound(cfg: Config, run: seq<Action>, s: State, a: Action)
    requires Enabled(cfg, s, a) && (a.PeerDeserialize? || a.PeerDrop?) && Ready(cfg, run, s, a)
    ensures Sound(cfg, run, s, a, Apply(cfg, s, a))
  {
    hide HasRead, Time, LastMade, WriteFailure, Began, Caches, Verdict, GivenAt;
    Appended(run, a, a.p);
  }

  lemma ComputeSound(cfg: Config, run: seq<Action>, s: State, a: Action)
    requires Enabled(cfg, s, a) && a.Compute? && (a.result.Produced? || a.result.ProducedNull?) && Ready(cfg, run, s, a)
    ensures Sound(cfg, run, s, a, Apply(cfg, s, a))
  {
    hide HasRead, Time, LastMade, WriteFailure, Began, GivenAt;
    Appended(run, a, a.p);
  }

  lemma FailureSound(cfg: Config, run: seq<Action>, s: State, a: Action)
    requires Enabled(cfg, s, a) && a.Compute? && (a.result.Failed? || a.result.FailedByAbort?) && Ready(cfg, run, s, a)
    ensures Sound(cfg, run, s, a, Apply(cfg, s, a))
  {
    hide HasRead, Time, LastMade, WriteFailure, Began, GivenAt;
    Appended(run, a, a.p);
  }

  lemma CheckSound(cfg: Config, run: seq<Action>, s: State, a: Action)
    requires Enabled(cfg, s, a) && CheckStep(a) && !a.Compute? && Ready(cfg, run, s, a)
    ensures Sound(cfg, run, s, a, Apply(cfg, s, a))
  {
    hide HasRead, Time, LastMade, WriteFailure, Began, Caches, Verdict, GivenAt, Refused;
    Appended(run, a, a.p);
  }

  lemma PrepareErrorSound(cfg: Config, run: seq<Action>, s: State, a: Action)
    requires Enabled(cfg, s, a) && a.PrepareError? && Ready(cfg, run, s, a)
    ensures Sound(cfg, run, s, a, Apply(cfg, s, a))
  {
    hide HasRead, Time, LastMade, WriteFailure, Began, GivenAt;
    Appended(run, a, a.p);
  }

  lemma CommitErrorSound(cfg: Config, run: seq<Action>, s: State, a: Action)
    requires Enabled(cfg, s, a) && a.CommitError? && Ready(cfg, run, s, a)
    ensures Sound(cfg, run, s, a, Apply(cfg, s, a))
  {
    hide HasRead, Time, LastMade, WriteFailure, Began, GivenAt;
    Appended(run, a, a.p);
  }

  lemma LostSound(cfg: Config, run: seq<Action>, s: State, a: Action)
    requires Enabled(cfg, s, a) && a.CompareAndSet? && !Matches(s, s.procs[a.p]) && Ready(cfg, run, s, a)
    ensures Sound(cfg, run, s, a, Apply(cfg, s, a))
  {
    hide HasRead, Time, LastMade, WriteFailure, Began, Caches, Verdict, GivenAt;
    Appended(run, a, a.p);
  }

  /** What a release hands over is what the computation came to. */
  lemma Given(cfg: Config, run: seq<Action>, s: State, a: Action, v: nat)
    requires Enabled(cfg, s, a) && a.Release? && Ready(cfg, run, s, a)
    requires s.procs[a.p].answer == Returned(FromSource(v))
    ensures GivenAt(cfg, run + [a], v, |run|)
  {
    hide HasRead, Time, LastMade, WriteFailure, Began, Caches, Verdict;
    assert (run + [a])[..|run|] == run && (run + [a])[|run|] == a;
  }

  lemma EndSound(cfg: Config, run: seq<Action>, s: State, t: State, a: Action)
    requires Enabled(cfg, s, a) && a.Release? && Ready(cfg, run, s, a)
    requires t == s.(store := t.store, hist := t.hist)
    requires t.hist.log == s.hist.log && t.hist.answers == s.hist.answers
    ensures Sound(cfg, run, s, a, Finish(t, a.p, s.procs[a.p].answer))
  {
    hide HasRead, Time, LastMade, WriteFailure, Began, Caches, Verdict, GivenAt;
    Appended(run, a, a.p);
    var answer := s.procs[a.p].answer;
    if answer.Returned? && answer.source.FromSource? { Given(cfg, run, s, a, answer.source.payload); }
  }

  lemma ReleaseSound(cfg: Config, run: seq<Action>, s: State, a: Action)
    requires Enabled(cfg, s, a) && a.Release? && Ready(cfg, run, s, a)
    ensures Sound(cfg, run, s, a, Apply(cfg, s, a))
  {
    hide HasRead, Time, ProcOk, GivenAt, Sound, Finish;
    var lease := s.procs[a.p].lease;
    EndSound(cfg, run, s, if lease.token.Some? then Unlock(s, lease.token.value, a.ok) else s, a);
  }

  lemma CommitKeeps(cfg: Config, run: seq<Action>, s: State, p: ProcId)
    requires Inv(cfg, run, s) && AtPc(s, p, Committing) && Matches(s, s.procs[p])
    ensures Inv(cfg, run + [CompareAndSet(p)], DoCompareAndSet(cfg, s, p))
  {
    hide HasRead, Time, LastMade, WriteFailure, Began, Caches, Verdict, GivenAt, Matches;
    var a, t := CompareAndSet(p), DoCompareAndSet(cfg, s, p);
    var n := |s.hist.log|;
    Stays(cfg, run, a);
    Appended(run, a, p);
    assert ProcOk(cfg, run, p, s.procs[p]);
    assert (run + [a])[..|run|] == run && (run + [a])[|run|] == a;
    forall q | 0 <= q < |t.procs| ensures ProcOk(cfg, run + [a], q, t.procs[q]) {
      if q != p { OthersKeep(cfg, run, a, q, s.procs[q]); }
    }
    forall k | 0 <= k < |t.hist.log| ensures Justified(cfg, run + [a], t.hist.log[k]) {
      if k < n {
        assert Justified(cfg, run, s.hist.log[k]);
      } else {
        assert MadeAt(cfg, run + [a], t.hist.log[k], |run|);
      }
    }
    forall k | 0 <= k < |t.hist.answers| ensures AnswerOk(cfg, run + [a], t.hist.answers[k]) {
      AnswerStays(cfg, run, a, s.hist.answers[k]);
    }
  }

  lemma StepKeeps(cfg: Config, run: seq<Action>, s: State, a: Action)
    requires Inv(cfg, run, s) && Enabled(cfg, s, a)
    ensures Inv(cfg, run + [a], Apply(cfg, s, a))
  {
    if EnvironmentStep(a) {
      EnvironmentKeeps(cfg, run, s, a);
    } else if a.CompareAndSet? && Matches(s, s.procs[a.p]) {
      CommitKeeps(cfg, run, s, a.p);
    } else {
      hide Apply, Sound, ProcOk;
      OnlyActorMoves(cfg, s, a);
      assert Ready(cfg, run, s, a);
      if a.Deserialize? { DeserializeSound(cfg, run, s, a); }
      else if a.Release? { ReleaseSound(cfg, run, s, a); }
      else if a.Read? { ReadSound(cfg, run, s, a); }
      else if CallStep(a) { JudgeSound(cfg, run, s, a); }
      else if a.TryLock? || a.LockError? { TryLockSound(cfg, run, s, a); }
      else if a.Reread? { RereadSound(cfg, run, s, a); }
      else if LockStep(a) { JudgeRereadSound(cfg, run, s, a); }
      else if a.Poll? || a.JudgePoll? { PollSound(cfg, run, s, a); }
      else if WaitStep(a) { PeerSound(cfg, run, s, a); }
      else if a.Compute? {
        if a.result.Produced? || a.result.ProducedNull? { ComputeSound(cfg, run, s, a); }
        else { FailureSound(cfg, run, s, a); }
      }
      else if CheckStep(a) { CheckSound(cfg, run, s, a); }
      else if a.CompareAndSet? { LostSound(cfg, run, s, a); }
      else if a.PrepareError? { PrepareErrorSound(cfg, run, s, a); }
      else { CommitErrorSound(cfg, run, s, a); }
      SoundKeeps(cfg, run, s, a, Apply(cfg, s, a));
    }
  }

  // ----- Runs

  lemma {:induction false} RunKeeps(cfg: Config, past: seq<Action>, s: State, run: seq<Action>)
    requires Inv(cfg, past, s) && CanRun(cfg, s, run)
    ensures Inv(cfg, past + run, After(cfg, s, run))
    decreases |run|
  {
    hide Inv, Apply, Enabled;
    if run == [] {
      assert past + run == past;
    } else {
      StepKeeps(cfg, past, s, run[0]);
      RunKeeps(cfg, past + [run[0]], Apply(cfg, s, run[0]), run[1..]);
      assert past + [run[0]] + run[1..] == past + run;
    }
  }

  lemma StartKeeps(cfg: Config, n: nat)
    ensures Inv(cfg, [], Start(n))
  {
  }

  lemma RunInv(cfg: Config, n: nat, run: seq<Action>)
    requires CanRun(cfg, Start(n), run)
    ensures Inv(cfg, run, After(cfg, Start(n), run))
  {
    hide Inv;
    StartKeeps(cfg, n);
    RunKeeps(cfg, [], Start(n), run);
    assert [] + run == run;
  }

  // ----- Where a commit comes from

  lemma {:induction false} LastMadeAt(run: seq<Action>, p: ProcId) returns (j: nat)
    requires LastMade(run, p).Some?
    ensures j < |run| && run[j].Compute? && run[j].p == p
    ensures LastMade(run, p).value == Made(run[j].result, run[j].aborted, Time(run[..j]))
    ensures forall m :: j < m < |run| && (run[m].Compute? || run[m].Read?) ==> run[m].p != p
  {
    var front, a := run[..|run| - 1], run[|run| - 1];
    if a.Compute? && a.p == p {
      j := |run| - 1;
    } else {
      j := LastMadeAt(front, p);
      assert front[..j] == run[..j];
      assert forall m :: j < m < |front| ==> front[m] == run[m];
    }
  }

  lemma {:induction false} BeganAt(run: seq<Action>, p: ProcId) returns (b: nat)
    requires Began(run, p).Some?
    ensures b < |run| && Turns(run[b], p) && Began(run, p).value == Time(run[..b])
    ensures forall m :: b < m < |run| ==> !Turns(run[m], p) && (run[m].Read? ==> run[m].p != p)
  {
    var front, a := run[..|run| - 1], run[|run| - 1];
    if Turns(a, p) {
      b := |run| - 1;
    } else {
      b := BeganAt(front, p);
      assert front[..b] == run[..b];
      assert forall m :: b < m < |front| ==> front[m] == run[m];
    }
  }

  lemma {:induction false} WriteFailureAt(run: seq<Action>, p: ProcId) returns (f: nat)
    requires WriteFailure(run, p).Some?
    ensures f < |run| && WriteFailure(run, p).value.at == Time(run[..f])
    ensures run[f] == PrepareError(p, false, WriteFailure(run, p).value.aborted)
            || run[f] == CommitError(p, WriteFailure(run, p).value.aborted)
    ensures forall m :: f < m < |run| && (run[m].Compute? || run[m].Read?) ==> run[m].p != p
  {
    var front, a := run[..|run| - 1], run[|run| - 1];
    if WriteFailure(front, p).None? {
      f := |run| - 1;
    } else {
      f := WriteFailureAt(front, p);
      assert front[..f] == run[..f];
      assert forall m :: f < m < |front| ==> front[m] == run[m];
    }
  }

  lemma {:induction false} LastRead(run: seq<Action>, p: ProcId) returns (r: nat)
    requires HasRead(run, p)
    ensures r < |run| && run[r].Read? && run[r].p == p
    ensures forall m :: r < m < |run| && run[m].Read? ==> run[m].p != p
  {
    if run[|run| - 1].Read? && run[|run| - 1].p == p {
      r := |run| - 1;
    } else {
      var front := run[..|run| - 1];
      var i :| 0 <= i < |run| && run[i].Read? && run[i].p == p;
      assert front[i] == run[i];
      r := LastRead(front, p);
      assert forall m :: r < m < |front| ==> front[m] == run[m];
    }
  }

  /** A process that computes has read the key before. */
  lemma ReadBefore(cfg: Config, n: nat, run: seq<Action>, j: nat)
    requires CanRun(cfg, Start(n), run) && j < |run| && run[j].Compute?
    ensures HasRead(run[..j], run[j].p)
  {
    hide HasRead, CanRun, After;
    Prefix(cfg, Start(n), run, j);
    RunInv(cfg, n, run[..j]);
    var s := After(cfg, Start(n), run[..j]);
    assert AtPc(s, run[j].p, Computing);
    assert ProcOk(cfg, run[..j], run[j].p, s.procs[run[j].p]);
  }

  /**
   * A commit made at `i` is of the computation that its writer finished at `j`, after reading the key at `r` and
   * turning to refresh it at `b`: of the value or null that was computed, or of the error of the computation or of
   * the write.
   */
  ghost predicate ComputedAt(cfg: Config, run: seq<Action>, c: Commit, r: nat, b: nat, j: nat, i: nat) {
    r < j < i < |run| && r < b < i && run[i] == CompareAndSet(c.writer)
    && run[r].Read? && run[r].p == c.writer && run[j].Compute? && run[j].p == c.writer
    && (forall m :: r < m < i && run[m].Read? ==> run[m].p != c.writer)
    && (forall m :: j < m < i && run[m].Compute? ==> run[m].p != c.writer)
    && Turns(run[b], c.writer) && c.startedAt == Time(run[..b]) && (forall m :: b < m < i ==> !Turns(run[m], c.writer))
    && match c.state
       case ValueState => run[j] == Compute(c.writer, Produced(c.payload), false) && c.at == Time(run[..j])
       case NullState =>
         run[j] == Compute(c.writer, ProducedNull, false) && c.at == Time(run[..j]) && cfg.cacheNull && c.payload == 0
       case ErrorState =>
         cfg.cacheErrors
         && ((run[j] == Compute(c.writer, Failed, false) && c.at == Time(run[..j]))
             || (cfg.failClosedWrites
                 && exists f :: j < f < i && c.at == Time(run[..f])
                      && (run[f] == PrepareError(c.writer, false, false) || run[f] == CommitError(c.writer, false))))
  }

  lemma Traced(cfg: Config, n: nat, run: seq<Action>, c: Commit, i: nat) returns (r: nat, b: nat, j: nat)
    requires CanRun(cfg, Start(n), run) && MadeAt(cfg, run, c, i)
    ensures ComputedAt(cfg, run, c, r, b, j, i)
  {
    hide CanRun, HasRead, Began;
    var past := run[..i];
    j := LastMadeAt(past, c.writer);
    assert past[..j] == run[..j] && past[j] == run[j];
    ReadBefore(cfg, n, run, j);
    r := LastRead(run[..j], c.writer);
    assert forall m :: 0 <= m < j ==> run[..j][m] == run[m];
    assert forall m :: 0 <= m < i ==> past[m] == run[m];
    b := BeganAt(past, c.writer);
    assert past[..b] == run[..b] && past[b] == run[b];
    if c.state.ErrorState? && WriteFailure(past, c.writer).Some? {
      var f := WriteFailureAt(past, c.writer);
      assert past[..f] == run[..f] && past[f] == run[f];
      AfterComputing(past, c.writer, j, f);
    }
  }

  /** A write fails after its computation. */
  lemma AfterComputing(run: seq<Action>, p: ProcId, j: nat, f: nat)
    requires j < |run| && run[j].Compute? && run[j].p == p && f < |run| && run[f] != run[j]
    requires forall m :: f < m < |run| && (run[m].Compute? || run[m].Read?) ==> run[m].p != p
    ensures j < f
  {
  }

  /**
   * In every run each commit is of something its writer computed after reading the key: a value or null was the
   * result of its last computation, its lifetime is counted from that moment, and its start is the turn to refresh.
   */
  lemma CommitsAreComputed(cfg: Config, n: nat, run: seq<Action>, k: nat)
    requires CanRun(cfg, Start(n), run) && k < |After(cfg, Start(n), run).hist.log|
    ensures exists r, b, j, i :: ComputedAt(cfg, run, After(cfg, Start(n), run).hist.log[k], r, b, j, i)
  {
    hide CanRun, After, ComputedAt, MadeAt;
    RunInv(cfg, n, run);
    var c := After(cfg, Start(n), run).hist.log[k];
    assert Justified(cfg, run, c);
    var i :| MadeAt(cfg, run, c, i);
    var r, b, j := Traced(cfg, n, run, c, i);
  }

  /**
   * At the end of a refresh, the caller is given what the process computed: the value, or the exception of the
   * computation or of a fail-closed write, in place of which a stale value may be served. A background refresh
   * gives nothing.
   */
  lemma RefreshGives(cfg: Config, n: nat, run: seq<Action>, p: ProcId, ok: bool)
    requires CanRun(cfg, Start(n), run) && Enabled(cfg, After(cfg, Start(n), run), Release(p, ok))
    ensures var s := After(cfg, Start(n), run);
            var x, t := s.procs[p], Apply(cfg, s, Release(p, ok));
            LastMade(run, p).Some? &&
            var verdict := Verdict(cfg, LastMade(run, p).value, WriteFailure(run, p));
            t.hist.answers == s.hist.answers +
              if x.detached then []
              else if verdict.Threw? && x.fallback.Some? then [Returned(x.fallback.value)] else [verdict]
  {
    hide CanRun, After, LastMade, WriteFailure, Verdict;
    RunInv(cfg, n, run);
    assert ProcOk(cfg, run, p, After(cfg, Start(n), run).procs[p]);
  }
}
