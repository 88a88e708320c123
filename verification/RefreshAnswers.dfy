/** What callers receive: never a cached error as a value, never an entry judged expired, never an uncommitted one. */
module RefreshAnswers {
  import opened Wrappers
  import opened Entries
  import opened Refresh

  // ----- Lifetimes

  /** How long what was written stays fresh, and how much longer it may be served stale. */
  function Lifetime(cfg: Config, state: EntryState): Option<nat> {
    if state.ErrorState? then cfg.errorTtlMs else cfg.ttlMs
  }

  function StaleWindow(cfg: Config, state: EntryState): Option<nat> {
    if state.ErrorState? then None else cfg.staleTtlMs
  }

  /** Younger than its lifetime, or without one. */
  predicate Young(cfg: Config, c: Commit, now: int) {
    Lifetime(cfg, c.state).None? || now - c.at < Lifetime(cfg, c.state).value
  }

  /** Past its lifetime by less than its stale window. */
  predicate Aged(cfg: Config, c: Commit, now: int) {
    !Young(cfg, c, now) && StaleWindow(cfg, c.state).Some?
    && now - c.at < Lifetime(cfg, c.state).value + StaleWindow(cfg, c.state).value
  }

  /** The entry is the one that was committed, with the deadlines of its lifetime. */
  predicate EntryOf(cfg: Config, c: Commit, e: Entry) {
    e.revision == c.revision && e.startedAt == c.startedAt && e.payload == c.payload && e.state == c.state
    && e.createdAt == c.at
    && e.expiresAt == (if Lifetime(cfg, c.state).None? then Never else At(c.at + Lifetime(cfg, c.state).value))
    && e.staleUntil == (if Lifetime(cfg, c.state).None? || StaleWindow(cfg, c.state).None? then None
                        else Some(At(c.at + Lifetime(cfg, c.state).value + StaleWindow(cfg, c.state).value)))
  }

  /** Freshness is a matter of age. */
  lemma FreshnessIsAge(cfg: Config, c: Commit, e: Entry, now: int)
    requires EntryOf(cfg, c, e)
    ensures FreshnessOf(e, now) == if Young(cfg, c, now) then Fresh else if Aged(cfg, c, now) then Stale else Expired
  {
  }

  predicate Committed(cfg: Config, log: seq<Commit>, e: Entry) {
    exists i :: 0 <= i < |log| && EntryOf(cfg, log[i], e)
  }

  /** A stored entry: some process committed it, and an error has no stale window. */
  predicate EntryOk(cfg: Config, log: seq<Commit>, e: Entry) {
    Committed(cfg, log, e) && (e.state.ErrorState? ==> e.staleUntil.None?)
  }

  predicate FoundOk(cfg: Config, log: seq<Commit>, e: Option<Entry>) {
    e.Some? ==> EntryOk(cfg, log, e.value)
  }

  /** What is stored is the newest commit. */
  predicate NewestOk(cfg: Config, log: seq<Commit>, e: Option<Entry>) {
    e.Some? ==> log != [] && EntryOf(cfg, log[|log| - 1], e.value)
  }

  predicate SourceOk(cfg: Config, log: seq<Commit>, c: Source) {
    c.FromCache? ==> EntryOk(cfg, log, c.entry) && !c.entry.state.ErrorState? && FreshnessOf(c.entry, c.at) != Expired
  }

  predicate AnswerOk(cfg: Config, log: seq<Commit>, a: Answer) {
    a.Returned? ==> SourceOk(cfg, log, a.source)
  }

  predicate ProcOk(cfg: Config, log: seq<Commit>, x: Proc) {
    && FoundOk(cfg, log, x.found)
    && (x.pc == Judging || x.pc == Deserializing ==>
          x.found.Some? ==> 0 < x.seen.len <= |log| && EntryOf(cfg, log[x.seen.len - 1], x.found.value))
    && (x.pc == Deserializing ==> x.found.Some? && FreshnessOf(x.found.value, x.judgedAt) != Expired)
    && (x.pc == ReleasingEarly || x.pc == PeerDeserializing
       ==> x.found.Some? && FreshnessOf(x.found.value, x.judgedAt) == Fresh)
    && (x.fallback.Some? ==> SourceOk(cfg, log, x.fallback.value))
    && AnswerOk(cfg, log, x.answer)
  }

  predicate Inv(cfg: Config, s: State) {
    && FoundOk(cfg, s.hist.log, s.store.entry)
    && NewestOk(cfg, s.hist.log, s.store.entry)
    && (forall p :: 0 <= p < |s.procs| ==> ProcOk(cfg, s.hist.log, s.procs[p]))
    && (forall i :: 0 <= i < |s.hist.answers| ==> AnswerOk(cfg, s.hist.log, s.hist.answers[i]))
  }

  /** A step that commits nothing: the entry can only vanish, and at most one good answer is given. */
  predicate Honest(cfg: Config, s: State, t: State, a: Action) {
    && |t.procs| == |s.procs|
    && t.hist.log == s.hist.log
    && (t.store.entry == s.store.entry || t.store.entry.None?)
    && (Actor(a).Some? ==> Actor(a).value < |t.procs| && ProcOk(cfg, t.hist.log, t.procs[Actor(a).value]))
    && (t.hist.answers == s.hist.answers
        || (|t.hist.answers| == |s.hist.answers| + 1 && t.hist.answers[..|s.hist.answers|] == s.hist.answers
            && AnswerOk(cfg, t.hist.log, t.hist.answers[|s.hist.answers|])))
  }

  lemma HonestKeeps(cfg: Config, s: State, t: State, a: Action)
    requires Inv(cfg, s) && OnlyActor(s, t, a) && Honest(cfg, s, t, a)
    ensures Inv(cfg, t)
  {
    hide AnswerOk, ProcOk, EntryOk;
    forall i | 0 <= i < |t.hist.answers| ensures AnswerOk(cfg, t.hist.log, t.hist.answers[i]) {
      if i < |s.hist.answers| { assert t.hist.answers[i] == s.hist.answers[i]; }
    }
  }

  lemma Grows(cfg: Config, log: seq<Commit>, c: Commit)
    ensures forall e :: EntryOk(cfg, log, e) ==> EntryOk(cfg, log + [c], e)
    ensures forall x :: ProcOk(cfg, log, x) ==> ProcOk(cfg, log + [c], x)
    ensures forall a :: AnswerOk(cfg, log, a) ==> AnswerOk(cfg, log + [c], a)
  {
    forall e | Committed(cfg, log, e) ensures Committed(cfg, log + [c], e) {
      var i :| 0 <= i < |log| && EntryOf(cfg, log[i], e);
      assert (log + [c])[i] == log[i];
    }
  }

  lemma CommitKeeps(cfg: Config, s: State, p: ProcId)
    requires Inv(cfg, s) && AtPc(s, p, Committing) && Matches(s, s.procs[p])
    ensures Inv(cfg, DoCompareAndSet(cfg, s, p))
  {
    var t, n := DoCompareAndSet(cfg, s, p), |s.hist.log|;
    var e, c := t.store.entry.value, t.hist.log[n];
    assert t.hist.log == s.hist.log + [c];
    Grows(cfg, s.hist.log, c);
    assert EntryOf(cfg, t.hist.log[n], e);
    assert Committed(cfg, t.hist.log, e);
    assert ProcOk(cfg, s.hist.log, s.procs[p]);
    var log := s.hist.log + [c];
    forall q | 0 <= q < |t.procs| ensures ProcOk(cfg, log, t.procs[q]) {
      assert ProcOk(cfg, s.hist.log, s.procs[q]);
    }
  }

  predicate Ready(cfg: Config, s: State, a: Action) {
    && FoundOk(cfg, s.hist.log, s.store.entry) && NewestOk(cfg, s.hist.log, s.store.entry)
    && (Actor(a).Some? ==> Actor(a).value < |s.procs| && ProcOk(cfg, s.hist.log, s.procs[Actor(a).value]))
  }

  lemma EnvironmentHonest(cfg: Config, s: State, a: Action)
    requires Enabled(cfg, s, a) && EnvironmentStep(a)
    ensures Honest(cfg, s, Apply(cfg, s, a), a)
  {
  }

  lemma ReadHonest(cfg: Config, s: State, a: Action)
    requires Enabled(cfg, s, a) && a.Read? && Ready(cfg, s, a)
    ensures Honest(cfg, s, Apply(cfg, s, a), a)
  {
    hide EntryOk;
  }

  lemma JudgeHonest(cfg: Config, s: State, a: Action)
    requires Enabled(cfg, s, a) && (a.Judge? || a.DropCorrupt?) && Ready(cfg, s, a)
    ensures Honest(cfg, s, Apply(cfg, s, a), a)
  {
    hide EntryOk;
  }

  lemma FinishHonest(cfg: Config, s: State, a: Action, p: ProcId, answer: Answer)
    requires p < |s.procs| && Actor(a) == Some(p) && Ready(cfg, s, a) && AnswerOk(cfg, s.hist.log, answer)
    ensures Honest(cfg, s, Finish(s, p, answer), a)
  {
    hide EntryOk;
  }

  lemma BeginWriteHonest(cfg: Config, s: State, a: Action, p: ProcId, state: EntryState, payload: nat, answer: Answer)
    requires p < |s.procs| && Actor(a) == Some(p) && Ready(cfg, s, a) && AnswerOk(cfg, s.hist.log, answer)
    ensures Honest(cfg, s, BeginWrite(cfg, s, p, s.procs[p], state, payload, answer), a)
    ensures Honest(cfg, s, Wrap(s, p, answer), a)
  {
    hide EntryOk;
  }

  lemma DeserializeHonest(cfg: Config, s: State, a: Action)
    requires Enabled(cfg, s, a) && a.Deserialize? && Ready(cfg, s, a)
    ensures Honest(cfg, s, Apply(cfg, s, a), a)
  {
    hide Committed, Finish;
    var x := s.procs[a.p];
    if a.ok && FreshnessOf(x.found.value, x.judgedAt) == Fresh {
      FinishHonest(cfg, s, a, a.p, Serve(x));
    }
  }

  lemma ReleaseHonest(cfg: Config, s: State, a: Action)
    requires Enabled(cfg, s, a) && a.Release? && Ready(cfg, s, a)
    ensures Honest(cfg, s, Apply(cfg, s, a), a)
  {
    hide EntryOk;
  }

  lemma TryLockHonest(cfg: Config, s: State, a: Action)
    requires Enabled(cfg, s, a) && (a.TryLock? || a.LockError?) && Ready(cfg, s, a)
    ensures Honest(cfg, s, Apply(cfg, s, a), a)
  {
    hide EntryOk;
  }

  lemma RereadHonest(cfg: Config, s: State, a: Action)
    requires Enabled(cfg, s, a) && a.Reread? && Ready(cfg, s, a)
    ensures Honest(cfg, s, Apply(cfg, s, a), a)
  {
    hide EntryOk;
  }

  lemma JudgeRereadHonest(cfg: Config, s: State, a: Action)
    requires Enabled(cfg, s, a) && (a.JudgeReread? || a.ReleaseEarly?) && Ready(cfg, s, a)
    ensures Honest(cfg, s, Apply(cfg, s, a), a)
  {
    hide EntryOk;
  }

  lemma PollHonest(cfg: Config, s: State, a: Action)
    requires Enabled(cfg, s, a) && a.Poll? && Ready(cfg, s, a)
    ensures Honest(cfg, s, Apply(cfg, s, a), a)
  {
    hide EntryOk, Finish;
    FinishHonest(cfg, s, a, a.p, Threw);
  }

  lemma JudgePollHonest(cfg: Config, s: State, a: Action)
    requires Enabled(cfg, s, a) && a.JudgePoll? && Ready(cfg, s, a)
    ensures Honest(cfg, s, Apply(cfg, s, a), a)
  {
    hide EntryOk, Finish;
    FinishHonest(cfg, s, a, a.p, Threw);
  }

  lemma PeerHonest(cfg: Config, s: State, a: Action)
    requires Enabled(cfg, s, a) && (a.PeerDeserialize? || a.PeerDrop?) && Ready(cfg, s, a)
    ensures Honest(cfg, s, Apply(cfg, s, a), a)
  {
    hide EntryOk, Finish;
    if a.PeerDeserialize? && a.ok { FinishHonest(cfg, s, a, a.p, Serve(s.procs[a.p])); }
  }

  lemma ComputeHonest(cfg: Config, s: State, a: Action)
    requires Enabled(cfg, s, a) && a.Compute? && Ready(cfg, s, a)
    ensures Honest(cfg, s, Apply(cfg, s, a), a)
  {
    hide EntryOk, BeginWrite, Wrap, Honest;
    match a.result
    case Produced(v) => BeginWriteHonest(cfg, s, a, a.p, ValueState, v, Returned(FromSource(v)));
    case ProducedNull => BeginWriteHonest(cfg, s, a, a.p, NullState, 0, Returned(FromSource(0)));
    case Failed => BeginWriteHonest(cfg, s, a, a.p, ErrorState, 0, Threw);
    case FailedByAbort => BeginWriteHonest(cfg, s, a, a.p, ErrorState, 0, Threw);
  }

  lemma CheckHonest(cfg: Config, s: State, a: Action)
    requires Enabled(cfg, s, a) && CheckStep(a) && !a.Compute? && Ready(cfg, s, a)
    ensures Honest(cfg, s, Apply(cfg, s, a), a)
  {
    hide EntryOk, Refused;
  }

  lemma WriteHonest(cfg: Config, s: State, a: Action)
    requires Enabled(cfg, s, a) && WriteStep(a) && Ready(cfg, s, a)
    requires a.CompareAndSet? ==> !Matches(s, s.procs[a.p])
    ensures Honest(cfg, s, Apply(cfg, s, a), a)
  {
    hide EntryOk;
  }

  lemma StepKeeps(cfg: Config, s: State, a: Action)
    requires Inv(cfg, s) && Enabled(cfg, s, a)
    ensures Inv(cfg, Apply(cfg, s, a))
  {
    if a.CompareAndSet? && Matches(s, s.procs[a.p]) {
      CommitKeeps(cfg, s, a.p);
    } else {
      hide Apply, Honest, ProcOk, AnswerOk, FoundOk;
      OnlyActorMoves(cfg, s, a);
      if EnvironmentStep(a) { EnvironmentHonest(cfg, s, a); }
      else if a.Deserialize? { DeserializeHonest(cfg, s, a); }
      else if a.Release? { ReleaseHonest(cfg, s, a); }
      else if a.Read? { ReadHonest(cfg, s, a); }
      else if CallStep(a) { JudgeHonest(cfg, s, a); }
      else if a.TryLock? || a.LockError? { TryLockHonest(cfg, s, a); }
      else if a.Reread? { RereadHonest(cfg, s, a); }
      else if LockStep(a) { JudgeRereadHonest(cfg, s, a); }
      else if a.Poll? { PollHonest(cfg, s, a); }
      else if a.JudgePoll? { JudgePollHonest(cfg, s, a); }
      else if WaitStep(a) { PeerHonest(cfg, s, a); }
      else if a.Compute? { ComputeHonest(cfg, s, a); }
      else if CheckStep(a) { CheckHonest(cfg, s, a); }
      else { WriteHonest(cfg, s, a); }
      HonestKeeps(cfg, s, Apply(cfg, s, a), a);
    }
  }

  lemma {:induction false} RunKeeps(cfg: Config, s: State, run: seq<Action>)
    requires Inv(cfg, s) && CanRun(cfg, s, run)
    ensures Inv(cfg, After(cfg, s, run))
    decreases |run|
  {
    if run != [] {
      StepKeeps(cfg, s, run[0]);
      RunKeeps(cfg, Apply(cfg, s, run[0]), run[1..]);
    }
  }

  lemma StartKeeps(cfg: Config, n: nat)
    ensures Inv(cfg, Start(n))
  {
  }
}
