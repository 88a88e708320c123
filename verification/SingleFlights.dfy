/**
 * Request coalescing (src/single-flight.ts): what each call and callback does to the table of flights. A
 * flight is referred to by the order of its creation, a consumer by the order of its arrival.
 */
module SingleFlights {
  /** A shared computation; `started` says that its factory has been called. */
  datatype Flight = Flight(key: string, consumers: int, keepAlive: bool, settled: bool, aborted: bool, started: bool)

  datatype Consumer = Consumer(flight: nat, hasSignal: bool, released: bool)

  /** A caller's signal: none, one that has not fired, or one that fired before the call. */
  datatype Signal = NoSignal | Active | AlreadyAborted

  datatype State = State(flights: map<string, nat>, records: seq<Flight>, consumers: seq<Consumer>)

  predicate References(st: State) {
    (forall k :: k in st.flights ==> st.flights[k] < |st.records|)
    && forall c :: 0 <= c < |st.consumers| ==> st.consumers[c].flight < |st.records|
  }

  // ----- Steps

  /** The flight a call joins, created when there is none. */
  function Board(st: State, key: string, keepAlive: bool): (nat, State)
    requires References(st)
  {
    if key !in st.flights then
      (|st.records|, st.(flights := st.flights[key := |st.records|], records := st.records
          + [Flight(key, 0, keepAlive, false, false, false)]))
    else
      var f := st.flights[key];
      (f, if keepAlive then st.(records := st.records[f := st.records[f].(keepAlive := true)]) else st)
  }

  function Attach(st: State, f: nat, hasSignal: bool): State
    requires f < |st.records|
  {
    st.(records := st.records[f := st.records[f].(consumers := st.records[f].consumers + 1)],
        consumers := st.consumers + [Consumer(f, hasSignal, false)])
  }

  /** `run`: a caller whose signal has fired is turned away; any other becomes a consumer. */
  function Run(st: State, key: string, keepAlive: bool, signal: Signal): State
    requires References(st)
  {
    if signal.AlreadyAborted? then st
    else
      var (f, boarded) := Board(st, key, keepAlive);
      Attach(boarded, f, signal.Active?)
  }

  /** A consumer leaves; the last one to leave an unfinished flight that is not kept alive aborts it. */
  function Release(st: State, c: nat): State
    requires References(st) && c < |st.consumers|
  {
    if st.consumers[c].released then st
    else
      var f := st.consumers[c].flight;
      var r := st.records[f].(consumers := st.records[f].consumers - 1);
      st.(consumers := st.consumers[c := st.consumers[c].(released := true)],
          records := st.records[f := r.(aborted := r.aborted || (r.consumers <= 0 && !r.keepAlive && !r.settled))])
  }

  /** The factory is called, on the microtask after the flight was created. */
  function Begin(st: State, f: nat): State
    requires f < |st.records|
  {
    st.(records := st.records[f := st.records[f].(started := true)])
  }

  /** The computation settles; the flight takes itself off the table if it is still the one listed. */
  function Settle(st: State, f: nat): State
    requires f < |st.records|
  {
    var key := st.records[f].key;
    st.(records := st.records[f := st.records[f].(settled := true)],
        flights := if key in st.flights && st.flights[key] == f then st.flights - {key} else st.flights)
  }

  /** Every listed flight is aborted and the table emptied. */
  function Clear(st: State): State {
    State(map[], seq(|st.records|, f requires 0 <= f < |st.records| =>
      st.records[f].(aborted := st.records[f].aborted || exists k :: k in st.flights && st.flights[k] == f)),
          st.consumers)
  }

  // ----- The class

  class SingleFlight {
    var flights: map<string, nat>
    var records: seq<Flight>
    var consumers: seq<Consumer>

    ghost function View(): State
      reads this
    {
      State(flights, records, consumers)
    }

    constructor ()
      ensures View() == State(map[], [], [])
    {
      flights, records, consumers := map[], [], [];
    }

    method RunOrJoin(key: string, keepAlive: bool, signal: Signal)
      requires References(View())
      modifies this
      ensures References(View()) && View() == Run(old(View()), key, keepAlive, signal)
    {
      if signal.AlreadyAborted? {
        return;
      }
      var f: nat;
      if key !in flights {
        f := |records|;
        records := records + [Flight(key, 0, keepAlive, false, false, false)];
        flights := flights[key := f];
      } else {
        f := flights[key];
        if keepAlive {
          records := records[f := records[f].(keepAlive := true)];
        }
      }
      AttachConsumer(f, signal.Active?);
    }

    method AttachConsumer(f: nat, hasSignal: bool)
      requires References(View()) && f < |records|
      modifies this`records, this`consumers
      ensures References(View()) && View() == Attach(old(View()), f, hasSignal)
    {
      records := records[f := records[f].(consumers := records[f].consumers + 1)];
      consumers := consumers + [Consumer(f, hasSignal, false)];
    }

    method ReleaseConsumer(c: nat)
      requires References(View()) && c < |consumers|
      modifies this`records, this`consumers
      ensures References(View()) && View() == Release(old(View()), c)
    {
      if consumers[c].released {
        return;
      }
      consumers := consumers[c := consumers[c].(released := true)];
      var f := consumers[c].flight;
      records := records[f := records[f].(consumers := records[f].consumers - 1)];
      if records[f].consumers <= 0 && !records[f].keepAlive && !records[f].settled {
        records := records[f := records[f].(aborted := true)];
      }
    }

    method OnSettled(f: nat)
      requires References(View()) && f < |records|
      modifies this`records, this`flights
      ensures References(View()) && View() == Settle(old(View()), f)
    {
      records := records[f := records[f].(settled := true)];
      var key := records[f].key;
      if key in flights && flights[key] == f {
        flights := flights - {key};
      }
    }

    method ClearAll()
      requires References(View())
      modifies this`records, this`flights
      ensures References(View()) && View() == Clear(old(View()))
    {
      var pending := flights.Keys;
      ghost var start := records;
      while pending != {}
        invariant pending <= flights.Keys && flights == old(flights) && consumers == old(consumers)
                  && |records| == |start|
        invariant forall f :: 0 <= f < |records| ==>
          records[f] == start[f].(aborted := start[f].aborted
          || exists k :: k in flights && k !in pending && flights[k] == f)
        decreases pending
      {
        var k :| k in pending;
        pending := pending - {k};
        var f := flights[k];
        records := records[f := records[f].(aborted := true)];
      }
      flights := map[];
      assert records == Clear(old(View())).records;
    }
  }
}
