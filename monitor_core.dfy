/** The monitoring state machine of networkrecoverd, as values.

    Each monitoring cycle takes one reachability observation. An online
    observation clears the debounce state. An offline one raises the failure
    counter and, the first time the counter reaches the threshold in an outage
    episode, asks the operator whether to run the recovery script.

    The three collaborators of a cycle are replaced: the reachability probe by
    the boolean `isOnline`, the confirmation dialog by the boolean
    `userAccepts` (looked at only when the cycle prompts), and the recovery
    script by a `Recovered` entry in the cycle's event log. */
module MonitorCore {

  /** The debounce count the daemon ships with. */
  const FailureThreshold: int := 3

  /** The daemon's only persistent state: consecutive failed checks, and
      whether the operator has been asked during the current episode. */
  datatype MonitorState = MonitorState(failureCount: int, promptShown: bool)

  /** The state the daemon starts with, and the one every online observation restores. */
  const Initial := MonitorState(0, false)

  /** A call a cycle makes to the outside world: the confirmation dialog, or the recovery script. */
  datatype Event = Prompted | Recovered

  /** The state after a cycle, with the calls it made, in order. */
  datatype Outcome = Outcome(state: MonitorState, events: seq<Event>)

  /** One cycle's input: what the probe reports, and what the operator
      would answer if this cycle asked. */
  datatype Observation = Observation(isOnline: bool, userAccepts: bool)

  /** Predicates on an event log: how many prompts and recoveries it holds. */
  function Prompts(log: seq<Event>): nat { multiset(log)[Prompted] }
  function Recoveries(log: seq<Event>): nat { multiset(log)[Recovered] }

  /** One monitoring cycle. */
  function Advance(s: MonitorState, isOnline: bool, userAccepts: bool, threshold: int): (o: Outcome)
    // online: both fields cleared, whatever they were, and no call made
    ensures isOnline ==> o.state == Initial && o.events == []
    // offline: the counter rises by exactly one, and stays there unless an accepted recovery resets it
    ensures !isOnline ==> o.state.failureCount == if Recovered in o.events then 0 else s.failureCount + 1
    // offline: the flag is set by a prompt and is otherwise left alone
    ensures !isOnline ==> o.state.promptShown == (s.promptShown || Prompted in o.events)
    // the operator is asked exactly when the raised counter reaches the threshold for the first time in the episode
    ensures Prompted in o.events <==> !isOnline && s.failureCount + 1 >= threshold && !s.promptShown
    // recovery runs exactly when the prompt of this same cycle was answered yes
    ensures Recovered in o.events <==> Prompted in o.events && userAccepts
    // at most one prompt and one recovery, the prompt first
    ensures o.events == [] || o.events == [Prompted] || o.events == [Prompted, Recovered]
  {
    if isOnline then
      Outcome(MonitorState(0, false), [])
    else
      var count := s.failureCount + 1;
      if count >= threshold && !s.promptShown then
        if userAccepts then
          Outcome(MonitorState(0, true), [Prompted, Recovered])
        else
          Outcome(MonitorState(count, true), [Prompted])
      else
        Outcome(MonitorState(count, s.promptShown), [])
  }

  /** The driver loop: cycles run one after another, each on the state the previous one left. */
  function Run(s: MonitorState, obs: seq<Observation>, threshold: int): (o: Outcome)
    // each cycle makes at most two calls
    ensures |o.events| <= 2 * |obs|
    decreases |obs|
  {
    if obs == [] then
      Outcome(s, [])
    else
      var before := Run(s, obs[..|obs| - 1], threshold);
      var last := obs[|obs| - 1];
      var step := Advance(before.state, last.isOnline, last.userAccepts, threshold);
      Outcome(step.state, before.events + step.events)
  }

  /** Over any run there are no more prompts than cycles, and never more
      recoveries than prompts. */
  lemma {:induction false} RunCallBounds(s: MonitorState, obs: seq<Observation>, threshold: int)
    ensures var log := Run(s, obs, threshold).events;
            Prompts(log) <= |obs| && Recoveries(log) <= Prompts(log)
    decreases |obs|
  {
    if obs != [] {
      RunCallBounds(s, obs[..|obs| - 1], threshold);
    }
  }

  /** What holds of every state the daemon can reach: the counter is never
      negative, and while the operator has not been asked it is below the threshold. */
  predicate Consistent(s: MonitorState, threshold: int)
  {
    0 <= s.failureCount && (!s.promptShown ==> s.failureCount < threshold)
  }

  lemma {:induction false} RunKeepsConsistent(s: MonitorState, obs: seq<Observation>, threshold: int)
    requires 1 <= threshold
    requires Consistent(s, threshold)
    ensures Consistent(Run(s, obs, threshold).state, threshold)
    decreases |obs|
  {
    if obs != [] {
      RunKeepsConsistent(s, obs[..|obs| - 1], threshold);
    }
  }

  /** In any state that keeps the invariant (by `RunKeepsConsistent`, every
      state reachable from `Initial`), the flag goes from false to true only
      in a cycle that observes an outage and raises the counter to exactly
      the threshold, and that cycle prompts. */
  lemma PromptFlagRisesOnlyAtThreshold(s: MonitorState, next: Observation, threshold: int)
    requires Consistent(s, threshold)
    ensures var o := Advance(s, next.isOnline, next.userAccepts, threshold);
            !s.promptShown && o.state.promptShown ==>
              !next.isOnline && s.failureCount + 1 == threshold && Prompted in o.events
  {
  }

  /** Running two stretches of observations one after the other is running
      the second from the state the first left, with the logs joined. */
  lemma {:induction false} RunAppend(s: MonitorState, a: seq<Observation>, b: seq<Observation>, threshold: int)
    ensures var r := Run(s, a, threshold);
            var t := Run(r.state, b, threshold);
            Run(s, a + b, threshold) == Outcome(t.state, r.events + t.events)
    decreases |b|
  {
    if b == [] {
      assert a + b == a;
    } else {
      var front := b[..|b| - 1];
      assert (a + b)[..|a + b| - 1] == a + front;
      assert (a + b)[|a + b| - 1] == b[|b| - 1];
      RunAppend(s, a, front, threshold);
    }
  }

  /** Every recovery in the log comes right after a prompt. */
  predicate RecoveriesFollowPrompts(log: seq<Event>)
  {
    forall i :: 0 <= i < |log| && log[i] == Recovered ==> 0 < i && log[i - 1] == Prompted
  }

  /** In the log of any run, every recovery comes immediately after a prompt. */
  lemma {:induction false} RecoveryFollowsPrompt(s: MonitorState, obs: seq<Observation>, threshold: int)
    ensures RecoveriesFollowPrompts(Run(s, obs, threshold).events)
    decreases |obs|
  {
    if obs != [] {
      var before := Run(s, obs[..|obs| - 1], threshold).events;
      var last := obs[|obs| - 1];
      var step := Advance(Run(s, obs[..|obs| - 1], threshold).state, last.isOnline, last.userAccepts, threshold).events;
      RecoveryFollowsPrompt(s, obs[..|obs| - 1], threshold);
      var log := before + step;
      assert log == Run(s, obs, threshold).events;
      forall i | 0 <= i < |log| && log[i] == Recovered
        ensures 0 < i && log[i - 1] == Prompted
      {
        if i < |before| {
          assert before[i] == Recovered;
          assert log[i - 1] == before[i - 1];
        } else {
          assert step[i - |before|] == Recovered;
          assert step == [Prompted, Recovered] && i == |before| + 1;
          assert log[i - 1] == step[0];
        }
      }
    }
  }

  /** Quirk kept from the daemon: once the flag is set (after a declined or
      an accepted prompt), offline cycles only raise the counter, and nothing
      is called until an online observation clears the flag. */
  lemma {:induction false} NoRepromptWhileFlagSet(s: MonitorState, obs: seq<Observation>, threshold: int)
    requires s.promptShown
    requires forall i :: 0 <= i < |obs| ==> !obs[i].isOnline
    ensures Run(s, obs, threshold) == Outcome(MonitorState(s.failureCount + |obs|, true), [])
    decreases |obs|
  {
    if obs != [] {
      NoRepromptWhileFlagSet(s, obs[..|obs| - 1], threshold);
    }
  }

  /** An outage episode that starts unprompted and below the threshold asks
      the operator at most once: once when it lasts long enough to reach the
      threshold, never otherwise, and recovers at most as often as it asks. */
  lemma {:induction false} OnePromptPerOutage(s: MonitorState, obs: seq<Observation>, threshold: int)
    requires !s.promptShown && 0 <= s.failureCount < threshold
    requires forall i :: 0 <= i < |obs| ==> !obs[i].isOnline
    ensures var o := Run(s, obs, threshold);
            && o.state.promptShown == (s.failureCount + |obs| >= threshold)
            && (s.failureCount + |obs| < threshold ==> o == Outcome(MonitorState(s.failureCount + |obs|, false), []))
            && Prompts(o.events) == (if s.failureCount + |obs| >= threshold then 1 else 0)
            && Recoveries(o.events) <= 1
    decreases |obs|
  {
    if obs != [] {
      OnePromptPerOutage(s, obs[..|obs| - 1], threshold);
    }
  }

  /** Within such an episode the prompt fires on precisely the cycle that
      brings the counter to the threshold. */
  lemma PromptOnCycleReachingThreshold(s: MonitorState, obs: seq<Observation>, j: nat, threshold: int)
    requires !s.promptShown && 0 <= s.failureCount < threshold
    requires forall i :: 0 <= i < |obs| ==> !obs[i].isOnline
    requires j < |obs|
    ensures var before := Run(s, obs[..j], threshold).state;
            Prompted in Advance(before, false, obs[j].userAccepts, threshold).events
            <==> s.failureCount + j + 1 == threshold
  {
    OnePromptPerOutage(s, obs[..j], threshold);
  }

  /** The whole of such an episode once it has reached the threshold: the
      cycle that brings the counter to the threshold prompts, and recovers
      exactly when its answer is yes; every later offline cycle only raises
      the counter. */
  lemma OutageOutcome(s: MonitorState, obs: seq<Observation>, threshold: int)
    requires !s.promptShown && 0 <= s.failureCount < threshold
    requires forall i :: 0 <= i < |obs| ==> !obs[i].isOnline
    requires s.failureCount + |obs| >= threshold
    ensures var k := threshold - s.failureCount - 1;
            obs[k].userAccepts ==> Run(s, obs, threshold) == Outcome(MonitorState(|obs| - k - 1, true), [Prompted, Recovered])
    ensures var k := threshold - s.failureCount - 1;
            !obs[k].userAccepts ==> Run(s, obs, threshold) == Outcome(MonitorState(s.failureCount + |obs|, true), [Prompted])
  {
    var k := threshold - s.failureCount - 1;
    var head, rest := obs[..k + 1], obs[k + 1..];
    var mid := Run(s, head, threshold);
    assert mid == if obs[k].userAccepts then Outcome(MonitorState(0, true), [Prompted, Recovered])
                  else Outcome(MonitorState(threshold, true), [Prompted]) by {
      assert head[k] == obs[k];
      ThresholdCycle(s, head, threshold);
    }
    assert Run(s, obs, threshold) == Outcome(MonitorState(mid.state.failureCount + |rest|, true), mid.events) by {
      assert head + rest == obs;
      QuietAfterPrompt(s, head, rest, threshold);
    }
    assert |rest| == |obs| - k - 1;
  }

  /** Offline cycles that follow a stretch that left the flag set add to the
      counter and nothing to the log. */
  lemma QuietAfterPrompt(s: MonitorState, head: seq<Observation>, rest: seq<Observation>, threshold: int)
    requires Run(s, head, threshold).state.promptShown
    requires forall i :: 0 <= i < |rest| ==> !rest[i].isOnline
    ensures var mid := Run(s, head, threshold);
            Run(s, head + rest, threshold) == Outcome(MonitorState(mid.state.failureCount + |rest|, true), mid.events)
  {
    var mid := Run(s, head, threshold);
    NoRepromptWhileFlagSet(mid.state, rest, threshold);
    RunAppend(s, head, rest, threshold);
    assert mid.events + [] == mid.events;
  }

  /** The first part of `OutageOutcome`: the cycles up to and including the
      one that reaches the threshold. */
  lemma ThresholdCycle(s: MonitorState, obs: seq<Observation>, threshold: int)
    requires !s.promptShown && 0 <= s.failureCount < threshold
    requires forall i :: 0 <= i < |obs| ==> !obs[i].isOnline
    requires s.failureCount + |obs| == threshold
    ensures Run(s, obs, threshold) ==
              if obs[|obs| - 1].userAccepts then Outcome(MonitorState(0, true), [Prompted, Recovered])
              else Outcome(MonitorState(threshold, true), [Prompted])
  {
    var front := obs[..|obs| - 1];
    OnePromptPerOutage(s, front, threshold);
    assert Run(s, front, threshold) == Outcome(MonitorState(threshold - 1, false), []);
  }
}
