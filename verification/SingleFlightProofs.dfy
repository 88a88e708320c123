/**
 * Runs of the coalescing table: consumers are counted exactly, a computation is aborted for no other reason
 * than the two the design names, and each flight calls its factory once.
 */
module SingleFlightProofs {
  import opened Lists
  import opened SingleFlights

  datatype Event =
    | Call(key: string, keepAlive: bool, signal: Signal)
    | Start(f: nat) | Finish(f: nat)
    | Leave(c: nat)
    | ClearTable

  /** The table, the flights that were on it when it was cleared, and the factory calls made so far. */
  datatype World = World(st: State, cleared: set<nat>, calls: seq<nat>)

  /**
   * A factory is called once its flight exists and settles after it was called; a consumer leaves when its
   * signal fires or when the result of its flight is delivered.
   */
  predicate Possible(w: World, e: Event) {
    References(w.st) &&
    match e
    case Start(f) => f < |w.st.records| && !w.st.records[f].started
    case Finish(f) => f < |w.st.records| && w.st.records[f].started && !w.st.records[f].settled
    case Leave(c) => c < |w.st.consumers| && (w.st.consumers[c].hasSignal
        || w.st.records[w.st.consumers[c].flight].settled)
    case _ => true
  }

  function Step(w: World, e: Event): World
    requires Possible(w, e)
  {
    match e
    case Call(key, keepAlive, signal) => w.(st := Run(w.st, key, keepAlive, signal))
    case Start(f) => w.(st := Begin(w.st, f), calls := w.calls + [f])
    case Finish(f) => w.(st := Settle(w.st, f))
    case Leave(c) => w.(st := Release(w.st, c))
    case ClearTable => w.(st := Clear(w.st), cleared := w.cleared + w.st.flights.Values)
  }

  // ----- Counting

  function Waiting(consumers: seq<Consumer>, f: nat): nat {
    if consumers == [] then 0
    else
      var last := consumers[|consumers| - 1];
      Waiting(consumers[..|consumers| - 1], f) + if last.flight == f && !last.released then 1 else 0
  }

  lemma WaitingAppend(consumers: seq<Consumer>, c: Consumer, f: nat)
    ensures Waiting(consumers + [c], f) == Waiting(consumers, f) + if c.flight == f && !c.released then 1 else 0
  {
    assert (consumers + [c])[..|consumers|] == consumers;
  }

  lemma {:induction false} WaitingReleased(consumers: seq<Consumer>, c: nat, f: nat)
    requires c < |consumers| && !consumers[c].released
    ensures Waiting(consumers[c := consumers[c].(released := true)], f)
            == Waiting(consumers, f) - if consumers[c].flight == f then 1 else 0
  {
    var n := |consumers| - 1;
    var after := consumers[c := consumers[c].(released := true)];
    if c < n {
      WaitingReleased(consumers[..n], c, f);
      assert after[..n] == consumers[..n][c := consumers[c].(released := true)];
    } else {
      assert after[..n] == consumers[..n];
    }
  }

  lemma {:induction false} NobodyWaits(consumers: seq<Consumer>, f: nat)
    requires Waiting(consumers, f) == 0
    ensures forall c :: 0 <= c < |consumers| && consumers[c].flight == f ==> consumers[c].released
  {
    if consumers != [] {
      NobodyWaits(consumers[..|consumers| - 1], f);
      assert forall c :: 0 <= c < |consumers| - 1 ==> consumers[c] == consumers[..|consumers| - 1][c];
    }
  }

  // ----- The invariant

  predicate FlightOk(w: World, f: nat)
    requires f < |w.st.records|
  {
    var r := w.st.records[f];
    r.consumers == Waiting(w.st.consumers, f) && (r.settled ==> r.started)
    && (!r.settled && f !in w.cleared ==> r.key in w.st.flights && w.st.flights[r.key] == f)
    && (f in w.cleared ==> r.aborted)
  }

  predicate ListedOk(w: World, key: string)
    requires References(w.st) && key in w.st.flights
  {
    var f := w.st.flights[key];
    w.st.records[f].key == key && !w.st.records[f].settled && f !in w.cleared
  }

  /** A consumer without a signal stays until its flight has settled. */
  predicate ConsumerOk(st: State, c: nat)
    requires References(st) && c < |st.consumers|
  {
    st.consumers[c].released && !st.consumers[c].hasSignal ==> st.records[st.consumers[c].flight].settled
  }

  predicate CallsOk(w: World) {
    NoDup(w.calls) && forall f :: 0 <= f < |w.st.records| ==> (f in w.calls <==> w.st.records[f].started)
  }

  predicate CallsKnown(w: World) {
    (forall i :: 0 <= i < |w.calls| ==> w.calls[i] < |w.st.records|)
    && forall f :: f in w.cleared ==> f < |w.st.records|
  }

  predicate Inv(w: World) {
    References(w.st) && CallsOk(w) && CallsKnown(w)
    && (forall f :: 0 <= f < |w.st.records| ==> FlightOk(w, f))
    && (forall k :: k in w.st.flights ==> ListedOk(w, k))
    && (forall c :: 0 <= c < |w.st.consumers| ==> ConsumerOk(w.st, c))
  }

  lemma AttachKeeps(w: World, f: nat, hasSignal: bool)
    requires References(w.st) && CallsOk(w) && CallsKnown(w) && f < |w.st.records|
    requires forall g :: 0 <= g < |w.st.records| ==> FlightOk(w, g)
    requires forall k :: k in w.st.flights ==> ListedOk(w, k)
    requires forall c :: 0 <= c < |w.st.consumers| ==> ConsumerOk(w.st, c)
    ensures Inv(w.(st := Attach(w.st, f, hasSignal)))
  {
    hide Waiting, NoDup;
    var w' := w.(st := Attach(w.st, f, hasSignal));
    forall g | 0 <= g < |w'.st.records| ensures FlightOk(w', g) {
      assert FlightOk(w, g);
      WaitingAppend(w.st.consumers, Consumer(f, hasSignal, false), g);
    }
    forall k | k in w'.st.flights ensures ListedOk(w', k) { assert ListedOk(w, k); }
    forall c | 0 <= c < |w'.st.consumers| ensures ConsumerOk(w'.st, c) {
      if c < |w.st.consumers| { assert ConsumerOk(w.st, c); }
    }
  }

  lemma {:induction false} NoConsumers(consumers: seq<Consumer>, f: nat)
    requires forall c :: 0 <= c < |consumers| ==> consumers[c].flight != f
    ensures Waiting(consumers, f) == 0
  {
    if consumers != [] { NoConsumers(consumers[..|consumers| - 1], f); }
  }

  lemma BoardKeeps(w: World, key: string, keepAlive: bool)
    requires Inv(w)
    ensures var (f, st) := Board(w.st, key, keepAlive); f < |st.records| && Inv(w.(st := st))
  {
    hide Waiting, NoDup;
    var (f, st) := Board(w.st, key, keepAlive);
    var w' := w.(st := st);
    if key !in w.st.flights { NoConsumers(w.st.consumers, |w.st.records|); }
    forall g | 0 <= g < |st.records| ensures FlightOk(w', g) {
      if g < |w.st.records| { assert FlightOk(w, g); } else { assert g !in w.cleared; }
    }
    forall k | k in st.flights ensures ListedOk(w', k) {
      if k in w.st.flights { assert ListedOk(w, k); } else { assert |w.st.records| !in w.cleared; }
    }
    forall c | 0 <= c < |st.consumers| ensures ConsumerOk(st, c) { assert ConsumerOk(w.st, c); }
    assert CallsOk(w');
  }

  lemma CallStep(w: World, e: Event)
    requires Inv(w) && e.Call? && Possible(w, e)
    ensures Inv(Step(w, e))
  {
    hide Inv, Board, Attach;
    if !e.signal.AlreadyAborted? {
      var (f, st) := Board(w.st, e.key, e.keepAlive);
      BoardKeeps(w, e.key, e.keepAlive);
      InvAttach(w.(st := st), f, e.signal.Active?);
    }
  }

  lemma InvAttach(w: World, f: nat, hasSignal: bool)
    requires Inv(w) && f < |w.st.records|
    ensures Inv(w.(st := Attach(w.st, f, hasSignal)))
  {
    hide FlightOk, ListedOk, ConsumerOk, CallsOk, Attach;
    AttachKeeps(w, f, hasSignal);
  }

  lemma LeaveStep(w: World, e: Event)
    requires Inv(w) && e.Leave? && Possible(w, e)
    ensures Inv(Step(w, e))
  {
    hide Waiting, NoDup;
    var w' := Step(w, e);
    var before := w.st.consumers;
    forall g | 0 <= g < |w'.st.records| ensures FlightOk(w', g) {
      assert FlightOk(w, g);
      if !before[e.c].released { WaitingReleased(before, e.c, g); }
    }
    forall k | k in w'.st.flights ensures ListedOk(w', k) { assert ListedOk(w, k); }
    forall c | 0 <= c < |w'.st.consumers| ensures ConsumerOk(w'.st, c) { assert ConsumerOk(w.st, c); }
  }

  lemma ProgressStep(w: World, e: Event)
    requires Inv(w) && (e.Start? || e.Finish?) && Possible(w, e)
    ensures Inv(Step(w, e))
  {
    hide Waiting;
    var w' := Step(w, e);
    forall g | 0 <= g < |w'.st.records| ensures FlightOk(w', g) { assert FlightOk(w, g); }
    forall k | k in w'.st.flights ensures ListedOk(w', k) { assert ListedOk(w, k); }
    forall c | 0 <= c < |w'.st.consumers| ensures ConsumerOk(w'.st, c) { assert ConsumerOk(w.st, c); }
    if e.Start? { assert e.f !in w.calls; AppendNoDup(w.calls, e.f); }
  }

  lemma ClearStep(w: World, e: Event)
    requires Inv(w) && e.ClearTable? && Possible(w, e)
    ensures Inv(Step(w, e))
  {
    hide Waiting, NoDup;
    var w' := Step(w, e);
    forall f | f in w.st.flights.Values ensures f < |w.st.records| {
      var k :| k in w.st.flights && w.st.flights[k] == f;
    }
    forall g | 0 <= g < |w'.st.records| ensures FlightOk(w', g) {
      assert FlightOk(w, g);
      var r := w.st.records[g];
      if !r.settled && g !in w.cleared { assert w.st.flights[r.key] == g && g in w.st.flights.Values; }
      if g in w.st.flights.Values {
        var k :| k in w.st.flights && w.st.flights[k] == g;
        assert w'.st.records[g].aborted;
      }
    }
    forall c | 0 <= c < |w'.st.consumers| ensures ConsumerOk(w'.st, c) { assert ConsumerOk(w.st, c); }
  }

  lemma EveryStep(w: World, e: Event)
    requires Inv(w) && Possible(w, e)
    ensures Inv(Step(w, e))
  {
    hide Inv, Step, Possible;
    match e
    case Call(_, _, _) => CallStep(w, e);
    case Leave(_) => LeaveStep(w, e);
    case Start(_) => ProgressStep(w, e);
    case Finish(_) => ProgressStep(w, e);
    case ClearTable => ClearStep(w, e);
  }

  // ----- Runs

  ghost predicate Reaches(w: World, events: seq<Event>, w': World)
    decreases |events|
  {
    if events == [] then w == w' else Possible(w, events[0]) && Reaches(Step(w, events[0]), events[1..], w')
  }

  const IDLE := World(State(map[], [], []), {}, [])

  lemma {:induction false} RunKeeps(w: World, events: seq<Event>, w': World)
    requires Inv(w) && Reaches(w, events, w')
    ensures Inv(w')
    decreases |events|
  {
    hide Inv, Step, Possible;
    if events != [] {
      EveryStep(w, events[0]);
      RunKeeps(Step(w, events[0]), events[1..], w');
    }
  }

  /**
   * In every run: the count of a flight is the number of its consumers that have not left; each factory is
   * called at most once; and two unfinished computations of one key exist only if the older was cleared.
   */
  lemma OneComputationPerKey(events: seq<Event>, w: World, f: nat, g: nat)
    requires Reaches(IDLE, events, w) && f < |w.st.records| && g < |w.st.records|
    ensures w.st.records[f].consumers == Waiting(w.st.consumers, f)
    ensures NoDup(w.calls)
    ensures (!w.st.records[f].settled && !w.st.records[g].settled && w.st.records[f].key == w.st.records[g].key
             && f !in w.cleared && g !in w.cleared) ==> f == g
  {
    hide Reaches, Waiting;
    RunKeeps(IDLE, events, w);
    assert FlightOk(w, f) && FlightOk(w, g);
  }

  /** A flight dropped by clearing never takes its successor off the table. */
  lemma ClearedLeavesSuccessor(events: seq<Event>, w: World, f: nat)
    requires Reaches(IDLE, events, w) && f in w.cleared && Possible(w, Finish(f))
    ensures Step(w, Finish(f)).st.flights == w.st.flights
  {
    hide Reaches, Waiting;
    RunKeeps(IDLE, events, w);
    var key := w.st.records[f].key;
    if key in w.st.flights { assert ListedOk(w, key); }
  }

  /**
   * A computation's signal fires only when the table with it is cleared, or at the step at which the last of
   * its consumers leaves, none of which was without a signal, while it is unfinished and not kept alive.
   */
  lemma AbortedOnlyWhen(events: seq<Event>, w: World, e: Event, f: nat)
    requires Reaches(IDLE, events, w) && Possible(w, e) && f < |w.st.records|
    requires !w.st.records[f].aborted && Step(w, e).st.records[f].aborted
    ensures (e.ClearTable? && w.st.records[f].key in w.st.flights && w.st.flights[w.st.records[f].key] == f)
            || (e.Leave? && w.st.consumers[e.c].flight == f && !w.st.consumers[e.c].released
               && !w.st.records[f].keepAlive && !w.st.records[f].settled
               && (forall c :: 0 <= c < |w.st.consumers| && c != e.c && w.st.consumers[c].flight == f ==>
                     w.st.consumers[c].released)
               && (forall c :: 0 <= c < |w.st.consumers| && w.st.consumers[c].flight == f ==>
                     w.st.consumers[c].hasSignal))
  {
    hide Reaches, Waiting;
    RunKeeps(IDLE, events, w);
    assert FlightOk(w, f);
    if e.Leave? {
      assert w.st.consumers[e.c].flight == f && !w.st.consumers[e.c].released;
      EveryStep(w, e);
      var w' := Step(w, e);
      assert FlightOk(w', f);
      NobodyWaits(w'.st.consumers, f);
      forall c | 0 <= c < |w.st.consumers| && w.st.consumers[c].flight == f
        ensures w.st.consumers[c].hasSignal && (c != e.c ==> w.st.consumers[c].released)
      {
        assert w'.st.consumers[c].released;
        assert ConsumerOk(w'.st, c);
      }
    } else if e.ClearTable? {
      var k :| k in w.st.flights && w.st.flights[k] == f;
      assert ListedOk(w, k);
    }
  }

  /** Kept alive, or awaited by a caller without a signal. */
  predicate Shielded(st: State, f: nat)
    requires References(st) && f < |st.records|
  {
    st.records[f].keepAlive
    || exists c :: 0 <= c < |st.consumers| && st.consumers[c].flight == f && !st.consumers[c].hasSignal
  }

  lemma ShieldStays(w: World, e: Event, f: nat)
    requires Possible(w, e) && f < |w.st.records| && Shielded(w.st, f) && References(Step(w, e).st)
    ensures f < |Step(w, e).st.records| && Shielded(Step(w, e).st, f)
  {
    var w' := Step(w, e);
    if !w.st.records[f].keepAlive {
      var c :| 0 <= c < |w.st.consumers| && w.st.consumers[c].flight == f && !w.st.consumers[c].hasSignal;
      assert w'.st.consumers[c].flight == f && !w'.st.consumers[c].hasSignal;
    }
  }

  /** Whoever leaves, a shielded computation runs on until it is cleared. */
  lemma {:induction false} ShieldHolds(before: seq<Event>, w: World, events: seq<Event>, w': World, f: nat)
    requires Reaches(IDLE, before, w) && References(w.st) && f < |w.st.records| && Shielded(w.st, f)
             && !w.st.records[f].aborted
    requires Reaches(w, events, w') && forall i :: 0 <= i < |events| ==> !events[i].ClearTable?
    ensures f < |w'.st.records| && !w'.st.records[f].aborted
    decreases |events|
  {
    hide Step, Possible, Inv;
    IdleOk();
    RunKeeps(IDLE, before, w);
    if events != [] {
      var w1 := Step(w, events[0]);
      EveryStep(w, events[0]);
      InvReferences(w1);
      ShieldStays(w, events[0], f);
      if w1.st.records[f].aborted { ShieldStops(before, w, events[0], f); }
      ReachesNext(IDLE, before, w, events[0]);
      ShieldHolds(before + [events[0]], w1, events[1..], w', f);
    }
  }

  lemma IdleOk()
    ensures Inv(IDLE)
  {
  }

  lemma InvReferences(w: World)
    requires Inv(w)
    ensures References(w.st)
  {
  }

  lemma ShieldStops(before: seq<Event>, w: World, e: Event, f: nat)
    requires Reaches(IDLE, before, w) && Possible(w, e) && f < |w.st.records| && Shielded(w.st, f)
             && !w.st.records[f].aborted
    requires !e.ClearTable?
    ensures !Step(w, e).st.records[f].aborted
  {
    hide Reaches;
    if Step(w, e).st.records[f].aborted { AbortedOnlyWhen(before, w, e, f); }
  }

  lemma {:induction false} ReachesNext(w: World, events: seq<Event>, w': World, e: Event)
    requires Reaches(w, events, w') && Possible(w', e)
    ensures Reaches(w, events + [e], Step(w', e))
    decreases |events|
  {
    hide Step, Possible;
    var more := events + [e];
    if events != [] {
      ReachesNext(Step(w, events[0]), events[1..], w', e);
      assert more[1..] == events[1..] + [e];
    } else {
      assert more[1..] == [];
      assert Reaches(Step(w, e), [], Step(w', e));
    }
  }

  // ----- Callers that arrive after an abort

  /** The last waiting consumer of a flight leaves while the flight is neither kept alive nor settled. */
  predicate Deserts(w: World, e: Event, f: nat) {
    Possible(w, e) && f < |w.st.records| && e.Leave? && w.st.consumers[e.c].flight == f && !w.st.consumers[e.c].released
    && !w.st.records[f].keepAlive && !w.st.records[f].settled
    && forall c :: 0 <= c < |w.st.consumers| && c != e.c && w.st.consumers[c].flight == f ==> w.st.consumers[c].released
  }

  ghost predicate Deserted(w: World, events: seq<Event>, f: nat)
    decreases |events|
  {
    events != [] && Possible(w, events[0]) && (Deserts(w, events[0], f) || Deserted(Step(w, events[0]), events[1..], f))
  }

  lemma {:induction false} AllReleased(consumers: seq<Consumer>, f: nat)
    requires forall c :: 0 <= c < |consumers| && consumers[c].flight == f ==> consumers[c].released
    ensures Waiting(consumers, f) == 0
  {
    if consumers != [] { AllReleased(consumers[..|consumers| - 1], f); }
  }

  lemma AbortsOnLeave(w: World, e: Event, f: nat)
    requires Inv(w) && Possible(w, e) && e.Leave? && f < |w.st.records|
    ensures Step(w, e).st.records[f].aborted <==> w.st.records[f].aborted || Deserts(w, e, f)
  {
    hide Waiting, NoDup;
    var before, after := w.st.consumers, Step(w, e).st.consumers;
    assert FlightOk(w, f);
    if before[e.c].flight == f && !before[e.c].released {
      WaitingReleased(before, e.c, f);
      if Waiting(after, f) == 0 {
        NobodyWaits(after, f);
        forall c | 0 <= c < |before| && c != e.c && before[c].flight == f ensures before[c].released {
          assert after[c] == before[c];
        }
      }
      if forall c :: 0 <= c < |before| && c != e.c && before[c].flight == f ==> before[c].released {
        AllReleased(after, f);
      }
    }
  }

  lemma AbortsExactly(w: World, e: Event, f: nat)
    requires Inv(w) && Possible(w, e) && f < |Step(w, e).st.records| && f !in Step(w, e).cleared
    ensures Step(w, e).st.records[f].aborted <==> (f < |w.st.records| && w.st.records[f].aborted) || Deserts(w, e, f)
  {
    hide Waiting, NoDup, FlightOk;
    if e.Leave? { AbortsOnLeave(w, e, f); }
  }

  lemma {:induction false} AbortedIffDeserted(w: World, events: seq<Event>, w': World, f: nat)
    requires Inv(w) && Reaches(w, events, w') && f < |w'.st.records| && f !in w'.cleared
    ensures w'.st.records[f].aborted <==> (f < |w.st.records| && w.st.records[f].aborted) || Deserted(w, events, f)
    decreases |events|
  {
    hide Inv, Step, Possible, Deserts;
    if events != [] {
      var w1 := Step(w, events[0]);
      EveryStep(w, events[0]);
      AbortedIffDeserted(w1, events[1..], w', f);
      ClearedStays(w1, events[1..], w', f);
      if f < |w1.st.records| { AbortsExactly(w, events[0], f); } else {
        FlightsStay(w, events[0]);
        NotThereYet(w, events[0], f);
      }
    }
  }

  lemma FlightsStay(w: World, e: Event)
    requires Possible(w, e)
    ensures |w.st.records| <= |Step(w, e).st.records|
  {
  }

  lemma NotThereYet(w: World, e: Event, f: nat)
    requires f >= |w.st.records|
    ensures !Deserts(w, e, f)
  {
  }

  lemma ClearedGrows(w: World, e: Event)
    requires Possible(w, e)
    ensures w.cleared <= Step(w, e).cleared
  {
  }

  lemma {:induction false} ClearedStays(w: World, events: seq<Event>, w': World, f: nat)
    requires Reaches(w, events, w') && f !in w'.cleared
    ensures f !in w.cleared
    decreases |events|
  {
    hide Step, Possible;
    if events != [] {
      ClearedStays(Step(w, events[0]), events[1..], w', f);
      ClearedGrows(w, events[0]);
    }
  }

  /**
   * After every run: a caller whose signal has not fired joins an aborted computation exactly when the one
   * listed under its key was deserted earlier; otherwise its computation is not aborted.
   */
  lemma JoinsAbortedIff(events: seq<Event>, w: World, key: string, keepAlive: bool, signal: Signal)
    requires Reaches(IDLE, events, w) && References(w.st) && !signal.AlreadyAborted?
    ensures var after := Step(w, Call(key, keepAlive, signal)).st;
            |after.consumers| == |w.st.consumers| + 1 &&
            var f := after.consumers[|w.st.consumers|].flight;
            f < |after.records| && after.records[f].key == key &&
            (after.records[f].aborted <==> key in w.st.flights && Deserted(IDLE, events, w.st.flights[key]))
  {
    hide Reaches, Deserted, Waiting, NoDup;
    IdleOk();
    RunKeeps(IDLE, events, w);
    if key in w.st.flights {
      assert ListedOk(w, key);
      AbortedIffDeserted(IDLE, events, w, w.st.flights[key]);
    }
  }

  /** Every call for the key keeps its computation alive or has no signal. */
  predicate Devoted(events: seq<Event>, key: string) {
    forall i :: 0 <= i < |events| && events[i].Call? && events[i].key == key
        ==> events[i].keepAlive || events[i].signal.NoSignal?
  }

  ghost predicate AllShielded(st: State, key: string)
    requires References(st)
  {
    forall f :: 0 <= f < |st.records| && st.records[f].key == key ==> Shielded(st, f)
  }

  lemma ShieldedNotDeserted(w: World, e: Event, f: nat)
    requires Inv(w) && Possible(w, e) && f < |w.st.records| && Shielded(w.st, f)
    ensures !Deserts(w, e, f)
  {
    hide Waiting, NoDup, FlightOk, ListedOk;
    if !w.st.records[f].keepAlive {
      var c :| 0 <= c < |w.st.consumers| && w.st.consumers[c].flight == f && !w.st.consumers[c].hasSignal;
      assert ConsumerOk(w.st, c);
    }
  }

  lemma FlightKeyStays(w: World, e: Event, f: nat)
    requires Possible(w, e) && f < |w.st.records|
    ensures f < |Step(w, e).st.records| && Step(w, e).st.records[f].key == w.st.records[f].key
  {
  }

  /** A new flight is shielded by the call that creates it. */
  lemma NewIsShielded(w: World, e: Event, f: nat)
    requires Possible(w, e) && References(Step(w, e).st) && |w.st.records| <= f < |Step(w, e).st.records|
    requires e.Call? ==> e.keepAlive || e.signal.NoSignal? || e.key != Step(w, e).st.records[f].key
    ensures Shielded(Step(w, e).st, f)
  {
    var w' := Step(w, e);
    if !e.keepAlive {
      var c := |w.st.consumers|;
      assert w'.st.consumers[c].flight == f && !w'.st.consumers[c].hasSignal;
    }
  }

  lemma DevotedStep(w: World, e: Event, key: string)
    requires Possible(w, e) && AllShielded(w.st, key) && References(Step(w, e).st)
    requires e.Call? && e.key == key ==> e.keepAlive || e.signal.NoSignal?
    ensures AllShielded(Step(w, e).st, key)
  {
    hide Step, Possible, Shielded;
    var w' := Step(w, e);
    forall f | 0 <= f < |w'.st.records| && w'.st.records[f].key == key ensures Shielded(w'.st, f) {
      if f < |w.st.records| {
        FlightKeyStays(w, e, f);
        ShieldStays(w, e, f);
      } else {
        NewIsShielded(w, e, f);
      }
    }
  }

  lemma {:induction false} DevotedNotDeserted(w: World, events: seq<Event>, w': World, key: string, f: nat)
    requires Inv(w) && AllShielded(w.st, key) && Reaches(w, events, w') && Devoted(events, key)
    requires f < |w'.st.records| && w'.st.records[f].key == key
    ensures !Deserted(w, events, f)
    decreases |events|
  {
    hide Inv, Step, Possible, Deserts, Shielded;
    if events != [] {
      var w1 := Step(w, events[0]);
      EveryStep(w, events[0]);
      InvReferences(w1);
      DevotedStep(w, events[0], key);
      assert Devoted(events[1..], key);
      DevotedNotDeserted(w1, events[1..], w', key, f);
      if f < |w.st.records| {
        KeyStays(w, events, w', f);
        ShieldedNotDeserted(w, events[0], f);
      } else {
        NotThereYet(w, events[0], f);
      }
    }
  }

  lemma {:induction false} KeyStays(w: World, events: seq<Event>, w': World, f: nat)
    requires Reaches(w, events, w') && f < |w.st.records|
    ensures f < |w'.st.records| && w'.st.records[f].key == w.st.records[f].key
    decreases |events|
  {
    hide Step, Possible;
    if events != [] {
      FlightKeyStays(w, events[0], f);
      KeyStays(Step(w, events[0]), events[1..], w', f);
    }
  }

  /** When every call for a key keeps the computation alive or has no signal, none joins an aborted one. */
  lemma DevotedNeverJoinsAborted(events: seq<Event>, w: World, key: string, keepAlive: bool, signal: Signal)
    requires Reaches(IDLE, events, w) && References(w.st) && !signal.AlreadyAborted? && Devoted(events, key)
    ensures var after := Step(w, Call(key, keepAlive, signal)).st;
            |after.consumers| == |w.st.consumers| + 1 &&
            var f := after.consumers[|w.st.consumers|].flight;
            f < |after.records| && !after.records[f].aborted
  {
    hide Reaches, Deserted, Waiting, NoDup, FlightOk, Step, Possible;
    IdleOk();
    RunKeeps(IDLE, events, w);
    JoinsAbortedIff(events, w, key, keepAlive, signal);
    if key in w.st.flights {
      assert ListedOk(w, key);
      DevotedNotDeserted(IDLE, events, w, key, w.st.flights[key]);
    }
  }

  /** An aborted flight stays listed until it settles, so that a caller arriving late joins it. */
  lemma LateCallerJoinsAborted(key: string)
    ensures var events := [Call(key, false, Active), Leave(0), Call(key, false, NoSignal)];
            exists w :: Reaches(IDLE, events, w) && |w.st.records| == 1 && w.st.records[0].aborted
                        && w.st.consumers == [Consumer(0, true, true), Consumer(0, false, false)]
  {
    var events := [Call(key, false, Active), Leave(0), Call(key, false, NoSignal)];
    var w1 := Step(IDLE, events[0]);
    assert w1.st == State(map[key := 0], [Flight(key, 1, false, false, false, false)], [Consumer(0, true, false)]);
    var w2 := Step(w1, events[1]);
    assert w2.st == State(map[key := 0], [Flight(key, 0, false, false, true, false)], [Consumer(0, true, true)]);
    var w3 := Step(w2, events[2]);
    assert w3.st == State(map[key := 0], [Flight(key, 1, false, false, true, false)],
           [Consumer(0, true, true), Consumer(0, false, false)]);
    var rest := events[1..];
    assert rest[0] == events[1] && rest[1..][0] == events[2] && rest[1..][1..] == [];
    assert Reaches(w3, rest[1..][1..], w3);
    assert Reaches(w2, rest[1..], w3);
    assert Reaches(w1, rest, w3);
  }

  // ----- What a call does to its flight

  /**
   * A caller whose signal has fired changes nothing. Any other becomes a consumer of the flight that is then listed
   * under its key, which is kept alive if the caller asks for it, and leaves early only if it has a signal.
   */
  lemma CallBoards(events: seq<Event>, w: World, key: string, keepAlive: bool, signal: Signal)
    requires Reaches(IDLE, events, w) && References(w.st)
    ensures signal.AlreadyAborted? ==> Step(w, Call(key, keepAlive, signal)) == w
    ensures !signal.AlreadyAborted? ==>
              var after := Step(w, Call(key, keepAlive, signal)).st;
              key in after.flights && after.flights[key] < |after.records|
              && after.consumers == w.st.consumers + [Consumer(after.flights[key], signal.Active?, false)]
              && (var f := after.flights[key];
                  (key in w.st.flights ==> f == w.st.flights[key])
                  && (after.records[f].keepAlive <==> keepAlive || (key in w.st.flights && w.st.records[f].keepAlive)))
              && forall g :: 0 <= g < |w.st.records| && g != after.flights[key] ==> after.records[g] == w.st.records[g]
  {
    hide Reaches, Waiting, NoDup;
    IdleOk();
    RunKeeps(IDLE, events, w);
    if key in w.st.flights { assert ListedOk(w, key); }
  }
}
