/** The daemon as it runs: the state record it updates field by field, the
    cycle that updates it, and the loop that hands each cycle a copy of the
    previous cycle's record. Each is proved against `MonitorCore`. */
module Daemon {
  import opened MonitorCore

  /** The mutable `MonitorState` record of the daemon. */
  class MonitorRecord {
    var failureCount: int
    var promptShown: bool

    /** The value the record holds. */
    function Value(): MonitorState
      reads this
    {
      MonitorState(failureCount, promptShown)
    }

    constructor (failureCount: int, promptShown: bool)
      ensures Value() == MonitorState(failureCount, promptShown)
    {
      this.failureCount := failureCount;
      this.promptShown := promptShown;
    }

    /** A fresh record with the same contents, so that a cycle never writes
        into the record it was handed last time. */
    method Copy() returns (c: MonitorRecord)
      ensures fresh(c) && c.Value() == Value()
    {
      c := new MonitorRecord(failureCount, promptShown);
    }
  }

  /** One monitoring cycle. It writes into `state` and hands the same record
      back; `events` records the calls to the confirmation dialog and to the
      recovery script. */
  method RunMonitoringCycle(state: MonitorRecord, isOnline: bool, userAccepts: bool, threshold: int)
    returns (r: MonitorRecord, ghost events: seq<Event>)
    modifies state
    ensures r == state
    ensures Outcome(r.Value(), events) == Advance(old(state.Value()), isOnline, userAccepts, threshold)
  {
    r := state;
    events := [];
    if isOnline {
      state.failureCount := 0;
      state.promptShown := false;
      return;
    }

    state.failureCount := state.failureCount + 1;

    if state.failureCount >= threshold && !state.promptShown {
      events := events + [Prompted];
      if userAccepts {
        events := events + [Recovered];
        state.failureCount := 0;
        state.promptShown := true;
      } else {
        state.promptShown := true;
      }
    }
  }

  /** The daemon's loop over a finite stretch of its observations: it starts
      from the initial record and passes a copy of the current record into
      each cycle, keeping the record the cycle returns. */
  method RunDaemon(observations: seq<Observation>, threshold: int)
    returns (final: MonitorState, ghost events: seq<Event>)
    ensures Outcome(final, events) == Run(Initial, observations, threshold)
    ensures 1 <= threshold ==> Consistent(final, threshold)
  {
    var state := new MonitorRecord(0, false);
    events := [];
    for i := 0 to |observations|
      invariant Outcome(state.Value(), events) == Run(Initial, observations[..i], threshold)
    {
      var copy := state.Copy();
      ghost var stepEvents;
      state, stepEvents := RunMonitoringCycle(copy, observations[i].isOnline, observations[i].userAccepts, threshold);
      events := events + stepEvents;
      assert observations[..i + 1][..i] == observations[..i];
    }
    assert observations[..|observations|] == observations;
    final := state.Value();
    if 1 <= threshold {
      RunKeepsConsistent(Initial, observations, threshold);
    }
  }
}
