/** The scripted traces of the daemon's test and simulation script, with the
    daemon's threshold of 3. The operator's answer matters only on the cycle
    that prompts, so the answers of all other cycles are left as parameters. */
module MonitorTraces {
  import opened MonitorCore

  function Offline(answer: bool): Observation { Observation(false, answer) }
  function Online(answer: bool): Observation { Observation(true, answer) }

  /** Three failures and an accepted prompt, then the connection returns. */
  lemma PromptAndRecoveryFlow(a1: bool, a2: bool, a4: bool)
    ensures var obs := [Offline(a1), Offline(a2), Offline(true), Online(a4)];
            && Run(Initial, obs[..1], FailureThreshold).state == MonitorState(1, false)
            && Run(Initial, obs[..2], FailureThreshold).state == MonitorState(2, false)
            && Run(Initial, obs[..3], FailureThreshold) == Outcome(MonitorState(0, true), [Prompted, Recovered])
            && Run(Initial, obs, FailureThreshold) == Outcome(MonitorState(0, false), [Prompted, Recovered])
  {
    var obs := [Offline(a1), Offline(a2), Offline(true), Online(a4)];
    assert obs[..1][..0] == [];
    assert obs[..2][..1] == obs[..1];
    assert obs[..3][..2] == obs[..2];
    assert obs[..3] == obs[..|obs| - 1];
  }

  /** The simulation: four failures with the prompt accepted on the third,
      then three online cycles. The fourth failure raises the counter under
      the set flag and does not prompt again. */
  lemma SimulationTrace(a1: bool, a2: bool, a4: bool, a5: bool, a6: bool, a7: bool)
    ensures var obs := [Offline(a1), Offline(a2), Offline(true), Offline(a4), Online(a5), Online(a6), Online(a7)];
            && Run(Initial, obs[..3], FailureThreshold).state == MonitorState(0, true)
            && Run(Initial, obs[..4], FailureThreshold) == Outcome(MonitorState(1, true), [Prompted, Recovered])
            && Run(Initial, obs[..5], FailureThreshold).state == Initial
            && Run(Initial, obs, FailureThreshold) == Outcome(Initial, [Prompted, Recovered])
  {
    var obs := [Offline(a1), Offline(a2), Offline(true), Offline(a4), Online(a5), Online(a6), Online(a7)];
    PromptAndRecoveryFlow(a1, a2, a5);
    var flow := [Offline(a1), Offline(a2), Offline(true), Online(a5)];
    assert obs[..3] == flow[..3];
    assert obs[..4][..3] == obs[..3];
    assert obs[..5][..4] == obs[..4];
    assert obs[..6][..5] == obs[..5];
    assert obs[..6] == obs[..|obs| - 1];
  }

  /** Three failures and a declined prompt: the counter keeps its value, and
      a fourth failure raises it without asking again. */
  lemma DeclineTrace(a1: bool, a2: bool, a4: bool)
    ensures Run(Initial, [Offline(a1), Offline(a2), Offline(false)], FailureThreshold)
              == Outcome(MonitorState(3, true), [Prompted])
    ensures Run(Initial, [Offline(a1), Offline(a2), Offline(false), Offline(a4)], FailureThreshold)
              == Outcome(MonitorState(4, true), [Prompted])
  {
    OutageOutcome(Initial, [Offline(a1), Offline(a2), Offline(false)], FailureThreshold);
    OutageOutcome(Initial, [Offline(a1), Offline(a2), Offline(false), Offline(a4)], FailureThreshold);
  }
}
