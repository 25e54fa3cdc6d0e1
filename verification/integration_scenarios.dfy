/**
 * The integration tests and example programs of the repository, replayed
 * against the model: each method builds a fresh state, drives it the way the
 * test does, and promises what the test asserts.
 */
module IntegrationScenarios {
  import opened Outcomes
  import opened FailpointState
  import opened FailpointMacros
  import opened CodepathState
  import opened CodepathMacros

  /** The errors are `anyhow::Error::msg(..)` values, modelled by their message. */
  function Show(e: string): string { e }

  const FirstSite := Location(Some("integration_test"), "tests/integration_test.rs", 27, Some("Fail with \"ERROR\""))
  const SecondSite := Location(Some("integration_test"), "tests/integration_test.rs", 76, Some("Fail with \"ANOTHER ERROR\""))

  /** `test_counter_mode`: the count is 0 after `start_counter` and 1 after one probe, which passes Ok through. */
  method CounterMode() returns (before: int, res: Result<(), string>, after: int)
    ensures before == 0 && res == Ok(()) && after == 1
  {
    var g := new Inner();
    g.StartCounter();
    before := g.GetCount();
    res := Failpoint(g, Ok(()), "ERROR", FirstSite, Show);
    after := g.GetCount();
  }

  /** `test_trigger_mode`: with ordinal 1 forced the one probe returns its error. */
  method TriggerMode() returns (res: Result<(), string>)
    ensures res == Err("ERROR")
  {
    var g := new Inner();
    g.StartTrigger(1);
    res := Failpoint(g, Ok(()), "ERROR", FirstSite, Show);
  }

  /** `test_trigger_mode_two`: with ordinal 2 forced the first probe passes and the second fires. */
  method TriggerModeTwo() returns (res: Result<(), string>)
    ensures res == Err("ANOTHER ERROR")
  {
    var g := new Inner();
    g.StartTrigger(2);
    var ret := Failpoint(g, Ok(()), "ERROR", FirstSite, Show);
    res := Failpoint(g, ret, "ANOTHER ERROR", SecondSite, Show);
  }

  /** The countdown carries across calls: `start_trigger(2)`, then the same one-probe call twice. */
  method CountdownAcrossCalls() returns (first: Result<(), string>, second: Result<(), string>)
    ensures first == Ok(()) && second == Err("Error 1")
  {
    var g := new Inner();
    g.StartTrigger(2);
    first := Failpoint(g, Ok(()), "Error 1", FirstSite, Show);
    second := Failpoint(g, Ok(()), "Error 1", FirstSite, Show);
  }

  /** A logger at the default verbosity receives exactly one report, a "triggered" one. */
  method LoggedTrigger() returns (res: Result<(), string>, ghost log: seq<string>)
    ensures res == Err("ERROR")
    ensures log == [TriggerMessage(FirstSite, "ERROR")]
  {
    var g := new Inner();
    g.SetLogger(true);
    g.StartTrigger(1);
    res := Failpoint(g, Ok(()), "ERROR", FirstSite, Show);
    log := g.messages;
  }

  /** A forced probe wrapping an Err keeps that Err and reports an unexpected failure. */
  method MaskedProbe() returns (res: Result<(), string>, ghost log: seq<string>)
    ensures res == Err("natural")
    ensures log == [UnexpectedMessage(FirstSite, "natural")]
  {
    var g := new Inner();
    g.SetLogger(true);
    g.StartTrigger(1);
    res := Failpoint(g, Err("natural"), "ERROR", FirstSite, Show);
    log := g.messages;
  }

  /** `test_test_codepath`: one probe, exhausted cleanly. */
  method CodepathOneProbe() returns (r: CodePathResult<(), string>)
    ensures r == CodePathResult(1, 1, None) && r.Success()
  {
    var g := new Inner();
    var path := CodePath([Step(ProbeCall(Ok(()), "ERROR", FirstSite), true)], ());
    ExhaustStraight(g.View(), path, Show);
    ghost var b, a;
    r, b, a := TestCodepath(g, path, Show);
  }

  /** `test_test_codepath_two`: the second probe is reached only when the first passes; both are exhausted. */
  method CodepathTwoProbes() returns (r: CodePathResult<(), string>)
    ensures r == CodePathResult(2, 2, None) && r.Success()
  {
    var g := new Inner();
    var path := CodePath([Step(ProbeCall(Ok(()), "Error 1", FirstSite), true),
                          Step(ProbeCall(Ok(()), "Error 2", SecondSite), true)], ());
    ExhaustStraight(g.View(), path, Show);
    ghost var b, a;
    r, b, a := TestCodepath(g, path, Show);
  }

  /** `test_test_codepath_before_and_after`: with one probe, each block runs twice. */
  method CodepathBeforeAndAfter() returns (r: CodePathResult<(), string>, ghost beforeRuns: nat, ghost afterRuns: nat)
    ensures r == CodePathResult(1, 1, None) && r.Success()
    ensures beforeRuns == 2 && afterRuns == 2
  {
    var g := new Inner();
    var path := CodePath([Step(ProbeCall(Ok(()), "Error 1", FirstSite), true)], ());
    ExhaustStraight(g.View(), path, Show);
    CountPassIsPassThrough(DefaultSnapshot(), path.steps, path.value, Show);
    ExhaustRecord(g.View(), path, Show);
    r, beforeRuns, afterRuns := TestCodepath(g, path, Show);
  }

  /** `test_test_codepath_codepath_does_not_fail`: the probe's error is swallowed, so ordinal 1 deviates. */
  method CodepathDoesNotFail() returns (r: CodePathResult<(), string>)
    ensures r == CodePathResult(1, 0, Some(Ok(())))
    ensures !r.Success()
  {
    var g := new Inner();
    var path := CodePath([Step(ProbeCall(Ok(()), "Error 1", FirstSite), false)], ());
    assert path.steps[1..] == [];
    var counted := Visit(DefaultSnapshot(), path.steps[0].call, Show);
    assert counted.result == Ok(());
    assert Run(DefaultSnapshot(), path.steps, path.value, Show) == Run(counted.after, [], (), Show).(outputs := [Ok(())]);
    var forced := Visit(DefaultSnapshot().(mode := Trigger, trigger := 1), path.steps[0].call, Show);
    assert forced.result == Err("Error 1");
    assert Run(DefaultSnapshot().(mode := Trigger, trigger := 1), path.steps, path.value, Show).result
        == Run(forced.after, [], (), Show).result;
    assert Forced(path, Show, 1) == Ok(());
    ExhaustionLaw(g.View(), path, Show);
    ExhaustStopsAt(g.View(), path, Show);
    ghost var b, a;
    r, b, a := TestCodepath(g, path, Show);
  }

  /** `examples/conditional_comp.rs` compiled out: the probe passes Ok through and the count is 0. */
  method DisabledBuild() returns (res: Result<(), string>, count: int)
    ensures res == Ok(()) && count == 0
  {
    res := DisabledFailpoint(Ok(()), "Error 1");
    count := DisabledGetCount();
  }
}
