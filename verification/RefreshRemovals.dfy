/** What is stored, in terms of the actions of the run: the newest commit, until one of a few actions removes it. */
module RefreshRemovals {
  import opened Wrappers
  import opened Refresh
  import opened RefreshOrigins

  /** The tag that an invalidation is about. */
  function TagOf(run: seq<Action>, id: nat): Option<Tag> {
    if run == [] then None
    else
      var front, a := run[..|run| - 1], run[|run| - 1];
      if a.BeginInvalidation? && a.id == id then Some(a.tag) else TagOf(front, id)
  }

  /** After the given actions, this one removes the entry: for any reason, for a tag of it, or as undecodable. */
  predicate Removes(cfg: Config, run: seq<Action>, a: Action) {
    match a
    case RemoveEntry => true
    case DeleteTagged(id, ok) => ok && TagOf(run, id).Some? && TagOf(run, id).value in cfg.tags
    case DropCorrupt(_, ok) => ok
    case PeerDrop(_, ok) => ok
    case _ => false
  }

  predicate TagsKnown(run: seq<Action>, s: State) {
    forall id :: id in s.env.running ==> TagOf(run, id) == Some(s.env.running[id].tag)
  }

  lemma TagAppended(run: seq<Action>, a: Action, id: nat)
    ensures TagOf(run + [a], id) == if a.BeginInvalidation? && a.id == id then Some(a.tag) else TagOf(run, id)
  {
    assert (run + [a])[..|run|] == run;
  }

  /** Processes leave the invalidations under way alone. */
  predicate SameRunning(s: State, t: State) {
    t.env == s.env
  }

  /** What a step leaves in the store, and the invalidations under way. */
  predicate Fate(cfg: Config, run: seq<Action>, s: State, a: Action, t: State) {
    if Removes(cfg, run, a) then t.store.entry.None?
    else if a.CompareAndSet? && a.p < |s.procs| && Matches(s, s.procs[a.p]) then
      t.store.entry.Some? && |t.hist.log| == |s.hist.log| + 1
      && t.store.entry.value.payload == t.hist.log[|s.hist.log|].payload
      && t.store.entry.value.revision == t.hist.log[|s.hist.log|].revision
    else t.store.entry == s.store.entry
  }

  lemma EnvironmentFate(cfg: Config, run: seq<Action>, s: State, a: Action)
    requires Enabled(cfg, s, a) && EnvironmentStep(a) && TagsKnown(run, s)
    ensures Fate(cfg, run, s, a, Apply(cfg, s, a)) && TagsKnown(run + [a], Apply(cfg, s, a))
  {
    hide TagOf;
    var t := Apply(cfg, s, a);
    forall id | id in t.env.running ensures TagOf(run + [a], id) == Some(t.env.running[id].tag) {
      TagAppended(run, a, id);
    }
  }

  lemma CallFate(cfg: Config, run: seq<Action>, s: State, a: Action)
    requires Enabled(cfg, s, a) && CallStep(a)
    ensures Fate(cfg, run, s, a, Apply(cfg, s, a)) && SameRunning(s, Apply(cfg, s, a))
  {
  }

  lemma LockFate(cfg: Config, run: seq<Action>, s: State, a: Action)
    requires Enabled(cfg, s, a) && LockStep(a)
    ensures Fate(cfg, run, s, a, Apply(cfg, s, a)) && SameRunning(s, Apply(cfg, s, a))
  {
  }

  lemma WaitFate(cfg: Config, run: seq<Action>, s: State, a: Action)
    requires Enabled(cfg, s, a) && WaitStep(a)
    ensures Fate(cfg, run, s, a, Apply(cfg, s, a)) && SameRunning(s, Apply(cfg, s, a))
  {
  }

  lemma CheckFate(cfg: Config, run: seq<Action>, s: State, a: Action)
    requires Enabled(cfg, s, a) && CheckStep(a)
    ensures Fate(cfg, run, s, a, Apply(cfg, s, a)) && SameRunning(s, Apply(cfg, s, a))
  {
  }

  lemma WriteFate(cfg: Config, run: seq<Action>, s: State, a: Action)
    requires Enabled(cfg, s, a) && WriteStep(a)
    ensures Fate(cfg, run, s, a, Apply(cfg, s, a)) && SameRunning(s, Apply(cfg, s, a))
  {
  }

  lemma StepFate(cfg: Config, run: seq<Action>, s: State, a: Action)
    requires Enabled(cfg, s, a) && TagsKnown(run, s)
    ensures Fate(cfg, run, s, a, Apply(cfg, s, a)) && TagsKnown(run + [a], Apply(cfg, s, a))
  {
    hide Apply, Enabled, Fate, TagOf;
    if EnvironmentStep(a) {
      EnvironmentFate(cfg, run, s, a);
    } else {
      if CallStep(a) { CallFate(cfg, run, s, a); }
      else if LockStep(a) { LockFate(cfg, run, s, a); }
      else if WaitStep(a) { WaitFate(cfg, run, s, a); }
      else if CheckStep(a) { CheckFate(cfg, run, s, a); }
      else { WriteFate(cfg, run, s, a); }
      forall id | id in s.env.running ensures TagOf(run + [a], id) == Some(s.env.running[id].tag) {
        TagAppended(run, a, id);
      }
    }
  }

  lemma {:induction false} RunTags(cfg: Config, past: seq<Action>, s: State, run: seq<Action>)
    requires TagsKnown(past, s) && CanRun(cfg, s, run)
    ensures TagsKnown(past + run, After(cfg, s, run))
    decreases |run|
  {
    hide TagsKnown, Apply, Enabled;
    if run == [] {
      assert past + run == past;
    } else {
      StepFate(cfg, past, s, run[0]);
      RunTags(cfg, past + [run[0]], Apply(cfg, s, run[0]), run[1..]);
      assert past + [run[0]] + run[1..] == past + run;
    }
  }

  lemma NoTags(n: nat)
    ensures TagsKnown([], Start(n))
  {
  }

  /**
   * After every run the next action removes what is stored exactly when it is a removal, the successful deletion of
   * an invalidation of one of the function's tags, or the dropping of a value that does not decode; a successful
   * compare-and-set replaces it with its commit; and every other action leaves it as it is.
   */
  lemma EntryFate(cfg: Config, n: nat, run: seq<Action>, a: Action)
    requires CanRun(cfg, Start(n), run) && Enabled(cfg, After(cfg, Start(n), run), a)
    ensures Fate(cfg, run, After(cfg, Start(n), run), a, Apply(cfg, After(cfg, Start(n), run), a))
  {
    hide CanRun, After, Fate, TagsKnown;
    NoTags(n);
    RunTags(cfg, [], Start(n), run);
    assert [] + run == run;
    StepFate(cfg, run, After(cfg, Start(n), run), a);
  }

  // ----- What is stored was committed after everything that removes it

  ghost predicate Standing(cfg: Config, run: seq<Action>, c: Commit, i: nat) {
    MadeAt(cfg, run, c, i) && forall j :: i < j < |run| ==> !Removes(cfg, run[..j], run[j])
  }

  /** A stored entry is the newest commit, and nothing has removed it since. */
  ghost predicate Stands(cfg: Config, run: seq<Action>, s: State) {
    s.store.entry.Some? ==>
      s.hist.log != [] &&
      var c := s.hist.log[|s.hist.log| - 1];
      s.store.entry.value.payload == c.payload && s.store.entry.value.revision == c.revision
      && exists i :: Standing(cfg, run, c, i)
  }

  lemma StandsOn(cfg: Config, run: seq<Action>, a: Action, c: Commit, i: nat)
    requires Standing(cfg, run, c, i) && !Removes(cfg, run, a)
    ensures Standing(cfg, run + [a], c, i)
  {
    hide Removes, MadeAt;
    Stays(cfg, run, a);
    forall j | i < j < |run + [a]| ensures !Removes(cfg, (run + [a])[..j], (run + [a])[j]) {
      assert (run + [a])[..j] == run[..j];
    }
  }

  lemma NewStands(cfg: Config, run: seq<Action>, c: Commit, a: Action)
    requires MadeAt(cfg, run + [a], c, |run|)
    ensures Standing(cfg, run + [a], c, |run|)
  {
  }

  lemma StandsKept(cfg: Config, n: nat, run: seq<Action>, a: Action)
    requires CanRun(cfg, Start(n), run) && Enabled(cfg, After(cfg, Start(n), run), a)
    requires Stands(cfg, run, After(cfg, Start(n), run))
    ensures Stands(cfg, run + [a], Apply(cfg, After(cfg, Start(n), run), a))
  {
    hide CanRun, After, Apply, Enabled, Standing, Removes, MadeAt, Matches;
    var s := After(cfg, Start(n), run);
    var t := Apply(cfg, s, a);
    EntryFate(cfg, n, run, a);
    LogOnlyByCommit(cfg, s, a);
    if t.store.entry.Some? {
      if a.CompareAndSet? && a.p < |s.procs| && Matches(s, s.procs[a.p]) {
        CommitMade(cfg, n, run, a);
        NewStands(cfg, run, t.hist.log[|s.hist.log|], a);
      } else {
        var c := s.hist.log[|s.hist.log| - 1];
        var i :| Standing(cfg, run, c, i);
        StandsOn(cfg, run, a, c, i);
      }
    }
  }

  lemma CommitMade(cfg: Config, n: nat, run: seq<Action>, a: Action)
    requires CanRun(cfg, Start(n), run) && Enabled(cfg, After(cfg, Start(n), run), a)
    requires a.CompareAndSet? && Matches(After(cfg, Start(n), run), After(cfg, Start(n), run).procs[a.p])
    ensures var s := After(cfg, Start(n), run);
            var t := Apply(cfg, s, a);
            |t.hist.log| == |s.hist.log| + 1 && MadeAt(cfg, run + [a], t.hist.log[|s.hist.log|], |run|)
  {
    hide CanRun, After, Caches, LastMade, WriteFailure, Began, Matches;
    RunInv(cfg, n, run);
    assert ProcOk(cfg, run, a.p, After(cfg, Start(n), run).procs[a.p]);
    assert (run + [a])[..|run|] == run && (run + [a])[|run|] == a;
  }

  predicate SameLog(s: State, t: State) {
    t.hist.log == s.hist.log
  }

  lemma LogOfEnvironment(cfg: Config, s: State, a: Action)
    requires Enabled(cfg, s, a) && EnvironmentStep(a)
    ensures SameLog(s, Apply(cfg, s, a))
  {
  }

  lemma LogOfCall(cfg: Config, s: State, a: Action)
    requires Enabled(cfg, s, a) && CallStep(a)
    ensures SameLog(s, Apply(cfg, s, a))
  {
  }

  lemma LogOfLock(cfg: Config, s: State, a: Action)
    requires Enabled(cfg, s, a) && LockStep(a)
    ensures SameLog(s, Apply(cfg, s, a))
  {
  }

  lemma LogOfWait(cfg: Config, s: State, a: Action)
    requires Enabled(cfg, s, a) && WaitStep(a)
    ensures SameLog(s, Apply(cfg, s, a))
  {
  }

  lemma LogOfCheck(cfg: Config, s: State, a: Action)
    requires Enabled(cfg, s, a) && CheckStep(a)
    ensures SameLog(s, Apply(cfg, s, a))
  {
  }

  lemma LogOfWrite(cfg: Config, s: State, a: Action)
    requires Enabled(cfg, s, a) && WriteStep(a) && !(a.CompareAndSet? && Matches(s, s.procs[a.p]))
    ensures SameLog(s, Apply(cfg, s, a))
  {
  }

  /** Nothing but a successful compare-and-set commits. */
  lemma LogOnlyByCommit(cfg: Config, s: State, a: Action)
    requires Enabled(cfg, s, a)
    ensures (a.CompareAndSet? && a.p < |s.procs| && Matches(s, s.procs[a.p]))
            || Apply(cfg, s, a).hist.log == s.hist.log
  {
    hide Apply, Matches;
    if !(a.CompareAndSet? && a.p < |s.procs| && Matches(s, s.procs[a.p])) {
      if EnvironmentStep(a) { LogOfEnvironment(cfg, s, a); }
      else if CallStep(a) { LogOfCall(cfg, s, a); }
      else if LockStep(a) { LogOfLock(cfg, s, a); }
      else if WaitStep(a) { LogOfWait(cfg, s, a); }
      else if CheckStep(a) { LogOfCheck(cfg, s, a); }
      else { LogOfWrite(cfg, s, a); }
    }
  }

  lemma LogOfCommit(cfg: Config, s: State, a: Action)
    requires Enabled(cfg, s, a) && a.CompareAndSet?
    ensures s.hist.log <= Apply(cfg, s, a).hist.log
  {
  }

  /** Commits are never taken back. */
  lemma {:induction false} LogLasts(cfg: Config, s: State, run: seq<Action>)
    requires CanRun(cfg, s, run)
    ensures s.hist.log <= After(cfg, s, run).hist.log
    decreases |run|
  {
    hide Apply, Enabled;
    if run != [] {
      LogOnlyByCommit(cfg, s, run[0]);
      if run[0].CompareAndSet? { LogOfCommit(cfg, s, run[0]); }
      LogLasts(cfg, Apply(cfg, s, run[0]), run[1..]);
    }
  }

  /**
   * In every run a stored entry is the newest commit, and since it was made nothing has removed it: no removal, no
   * deletion of an invalidation of a tag of it.
   */
  lemma {:induction false} StoredIsStanding(cfg: Config, n: nat, run: seq<Action>)
    requires CanRun(cfg, Start(n), run)
    ensures Stands(cfg, run, After(cfg, Start(n), run))
    decreases |run|
  {
    hide CanRun, After, Stands, Enabled, Apply;
    if run == [] {
      NothingStored(cfg, n);
    } else {
      var front := run[..|run| - 1];
      Prefix(cfg, Start(n), run, |run| - 1);
      assert run[..|run|] == run && front + [run[|run| - 1]] == run;
      StoredIsStanding(cfg, n, front);
      StandsKept(cfg, n, front, run[|run| - 1]);
    }
  }

  lemma NothingStored(cfg: Config, n: nat)
    ensures CanRun(cfg, Start(n), []) && Stands(cfg, [], After(cfg, Start(n), []))
  {
  }
}
