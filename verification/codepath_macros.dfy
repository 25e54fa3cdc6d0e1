/**
 * `test_codepath!`: the exhaustion driver. It runs a code path once in Count
 * mode to learn how many probes it visits, then once per ordinal k = 1, 2, ...
 * in Trigger mode with `start_trigger(k)`, expecting the Count pass to succeed
 * and every Trigger pass to fail, and stops at the first pass that deviates.
 *
 * The code path under test is modelled concretely: a sequence of probe visits,
 * each with the result its wrapped operation produced and a flag saying whether
 * the surrounding code returns an Err from that probe or swallows it, and the
 * value the path returns when it gets to the end. The `before` and `after`
 * blocks are modelled by how many times each runs.
 */
module CodepathMacros {
  import opened Outcomes
  import opened FailpointState
  import opened FailpointMacros
  import opened CodepathState

  /** A probe on the code path; on an Err from it the code returns (`propagate`) or carries on. */
  datatype Step<T, E> = Step(call: ProbeCall<T, E>, propagate: bool)

  /** A code path: its probes in the order it reaches them, and the value it returns when it gets through. */
  datatype CodePath<T, E> = CodePath(steps: seq<Step<T, E>>, value: T)

  /** One execution of a code path: the state afterwards, what each probe reached returned, the path's result. */
  datatype PathRun<T, E> = PathRun(after: Snapshot, outputs: seq<Result<T, E>>, result: Result<T, E>)

  /** Executes the probes from state `s`; an Err from a propagating probe ends the path with that Err. */
  function Run<T, E>(s: Snapshot, steps: seq<Step<T, E>>, value: T, render: E -> string): PathRun<T, E>
    decreases |steps|
  {
    if steps == [] then PathRun(s, [], Ok(value))
    else
      var p := Visit(s, steps[0].call, render);
      if p.result.Err? && steps[0].propagate then PathRun(p.after, [p.result], p.result)
      else
        var rest := Run(p.after, steps[1..], value, render);
        PathRun(rest.after, [p.result] + rest.outputs, rest.result)
  }

  /** The code path executing against the shared state `g`. */
  method RunCodePath<T, E>(g: Inner, path: CodePath<T, E>, render: E -> string) returns (r: Result<T, E>)
    modifies g
    ensures g.View() == Run(old(g.View()), path.steps, path.value, render).after
    ensures r == Run(old(g.View()), path.steps, path.value, render).result
  {
    ghost var whole := Run(g.View(), path.steps, path.value, render);
    var i := 0;
    while i < |path.steps|
      invariant 0 <= i <= |path.steps|
      invariant Run(g.View(), path.steps[i..], path.value, render).after == whole.after
      invariant Run(g.View(), path.steps[i..], path.value, render).result == whole.result
    {
      var step := path.steps[i];
      assert path.steps[i..][0] == step;
      assert path.steps[i..][1..] == path.steps[i + 1..];
      r := Failpoint(g, step.call.res, step.call.err, step.call.loc, render);
      if r.Err? && step.propagate {
        return;
      }
      i := i + 1;
    }
    r := Ok(path.value);
  }

  // ---------------------------------------------------------------------------
  // The driver

  /** What an exhaustion run leaves behind: the state, the record, and how often `before` and `after` ran. */
  datatype Exhaustion<T, E> = Exhaustion(after: Snapshot, result: CodePathResult<T, E>, beforeRuns: nat, afterRuns: nat)

  /** The driver's loop as a function: the Count pass, then the Trigger passes from ordinal 1. */
  function Exhaust<T, E>(s: Snapshot, path: CodePath<T, E>, render: E -> string): Exhaustion<T, E>
  {
    var counted := Run(s.(mode := Count, counter := 0), path.steps, path.value, render);
    if counted.result.Err? then
      Exhaustion(counted.after, CodePathResult(I64_MAX, -1, Some(counted.result)), 1, 0)
    else
      TriggerPasses(counted.after, path, render, 1, counted.after.counter)
  }

  /** The Trigger passes for ordinals k, k + 1, ..., n, stopping at the first one that succeeds. */
  function TriggerPasses<T, E>(s: Snapshot, path: CodePath<T, E>, render: E -> string, k: int, n: int): Exhaustion<T, E>
    requires k >= 1
    decreases n - k + 1
  {
    if k > n then Exhaustion(s, CodePathResult(n, k - 1, None), k, k)
    else
      var triggered := Run(s.(mode := Trigger, trigger := k), path.steps, path.value, render);
      if triggered.result.Ok? then
        Exhaustion(triggered.after, CodePathResult(n, k - 1, Some(triggered.result)), k + 1, k)
      else
        TriggerPasses(triggered.after, path, render, k + 1, n)
  }

  /** The main arm of `test_codepath!`; `beforeRuns` and `afterRuns` count the runs of the two blocks. */
  method TestCodepath<T, E>(g: Inner, path: CodePath<T, E>, render: E -> string)
    returns (result: CodePathResult<T, E>, ghost beforeRuns: nat, ghost afterRuns: nat)
    modifies g
    ensures var x := Exhaust(old(g.View()), path, render);
            g.View() == x.after && result == x.result && beforeRuns == x.beforeRuns && afterRuns == x.afterRuns
  {
    ghost var s0 := g.View();
    var mode := Count;
    var triggerCount := 0;
    var errorCount := I64_MAX;
    var unexpected: Option<Result<T, E>> := None;
    beforeRuns, afterRuns := 0, 0;
    while true
      invariant mode == Count ==>
                  triggerCount == 0 && errorCount == I64_MAX && beforeRuns == 0 && afterRuns == 0 && g.View() == s0
      invariant mode == Trigger ==>
                  1 <= triggerCount && beforeRuns == triggerCount && afterRuns == triggerCount
                  && Exhaust(s0, path, render) == TriggerPasses(g.View(), path, render, triggerCount, errorCount)
      decreases if mode == Count then 1 else 0, errorCount - triggerCount + 1
    {
      if mode == Trigger && triggerCount > errorCount {
        unexpected := None;
        break;
      }
      beforeRuns := beforeRuns + 1;  // the `before` block
      if mode == Count {
        g.StartCounter();
      } else {
        g.StartTrigger(triggerCount);
      }
      var res := RunCodePath(g, path, render);
      if mode == Count {
        if res.Err? {
          unexpected := Some(res);
          break;
        }
      } else {
        if !res.Err? {
          unexpected := Some(res);
          break;
        }
      }
      if mode == Count {
        mode := Trigger;
        triggerCount := 1;
        errorCount := g.GetCount();
      } else {
        triggerCount := triggerCount + 1;
      }
      afterRuns := afterRuns + 1;  // the `after` block
    }
    result := CodePathResult(errorCount, triggerCount - 1, unexpected);
  }

  // ---------------------------------------------------------------------------
  // The build with failpoints compiled out

  /** The code path with every probe a pass-through. */
  function RunDisabled<T, E>(steps: seq<Step<T, E>>, value: T): Result<T, E>
    decreases |steps|
  {
    if steps == [] then Ok(value)
    else
      var r := DisabledFailpoint(steps[0].call.res, steps[0].call.err);
      if r.Err? && steps[0].propagate then r else RunDisabled(steps[1..], value)
  }

  /**
   * `test_codepath!` compiled out: `before`, the path and `after` once each; zero
   * probes; the result kept. Both counts are zero, so the record claims success
   * whatever the path returned.
   */
  method TestCodepathDisabled<T, E>(path: CodePath<T, E>)
    returns (result: CodePathResult<T, E>, ghost beforeRuns: nat, ghost afterRuns: nat)
    ensures result.expectedTriggerCount == 0 && result.triggerCount == 0
    ensures result.unexpectedResult == Some(RunDisabled(path.steps, path.value))
    ensures beforeRuns == 1 && afterRuns == 1
    ensures result.Success()
  {
    beforeRuns := 1;
    var res := RunDisabled(path.steps, path.value);
    afterRuns := 1;
    result := CodePathResult(0, 0, Some(res));
  }

  // ---------------------------------------------------------------------------
  // Properties of one execution

  /**
   * In Count mode every probe passes its result through, so the path returns
   * what it returns with failpoints compiled out; each probe reached adds one
   * to the counter, and nothing else changes.
   */
  lemma {:induction false} CountPassIsPassThrough<T, E>(s: Snapshot, steps: seq<Step<T, E>>, value: T, render: E -> string)
    requires s.mode == Count
    ensures var run := Run(s, steps, value, render);
            && run.result == RunDisabled(steps, value)
            && run.after == s.(counter := s.counter + |run.outputs|)
            && |run.outputs| <= |steps|
            && forall i :: 0 <= i < |run.outputs| ==> run.outputs[i] == steps[i].call.res
    decreases |steps|
  {
    if steps != [] {
      var p := Visit(s, steps[0].call, render);
      CountPassIsPassThrough(p.after, steps[1..], value, render);
      var run := Run(s, steps, value, render);
      var rest := Run(p.after, steps[1..], value, render);
      if !(p.result.Err? && steps[0].propagate) {
        forall i | 0 <= i < |run.outputs|
          ensures run.outputs[i] == steps[i].call.res
        {
          if i > 0 {
            assert run.outputs[i] == rest.outputs[i - 1];
          }
        }
      }
    }
  }

  /**
   * Which probes a path reaches, what each returns and what the path returns
   * depend on the state only through the mode and, in Trigger mode, the
   * countdown; the counter, the verbosity and the logger play no part.
   */
  lemma {:induction false} RunDependsOnModeAndTrigger<T, E>(s1: Snapshot, s2: Snapshot, steps: seq<Step<T, E>>, value: T, render: E -> string)
    requires s1.mode == s2.mode
    requires s1.mode == Trigger ==> s1.trigger == s2.trigger
    ensures Run(s1, steps, value, render).outputs == Run(s2, steps, value, render).outputs
    ensures Run(s1, steps, value, render).result == Run(s2, steps, value, render).result
    decreases |steps|
  {
    if steps != [] {
      var p1 := Visit(s1, steps[0].call, render);
      var p2 := Visit(s2, steps[0].call, render);
      VisitDependsOnModeAndTrigger(s1, s2, steps[0].call, render);
      if !(p1.result.Err? && steps[0].propagate) {
        RunDependsOnModeAndTrigger(p1.after, p2.after, steps[1..], value, render);
      }
    }
  }

  /** One visit: what it returns, and the mode and countdown it leaves, depend only on the mode and the countdown. */
  lemma VisitDependsOnModeAndTrigger<T, E>(s1: Snapshot, s2: Snapshot, call: ProbeCall<T, E>, render: E -> string)
    requires s1.mode == s2.mode
    requires s1.mode == Trigger ==> s1.trigger == s2.trigger
    ensures Visit(s1, call, render).result == Visit(s2, call, render).result
    ensures Visit(s1, call, render).after.mode == Visit(s2, call, render).after.mode == s1.mode
    ensures s1.mode == Trigger ==> Visit(s1, call, render).after.trigger == Visit(s2, call, render).after.trigger
  {
    if s1.mode == Count {
      VisitInCountMode(s1, call, render);
      VisitInCountMode(s2, call, render);
    } else {
      VisitInTriggerMode(s1, call, render);
      VisitInTriggerMode(s2, call, render);
    }
  }

  /** The Count pass of a path, from a fresh state. */
  function CountPass<T, E>(path: CodePath<T, E>, render: E -> string): PathRun<T, E>
  {
    Run(DefaultSnapshot(), path.steps, path.value, render)
  }

  /** What the path returns when ordinal `j` is forced, from a fresh state after `start_trigger(j)`. */
  function Forced<T, E>(path: CodePath<T, E>, render: E -> string, j: int): Result<T, E>
  {
    Run(DefaultSnapshot().(mode := Trigger, trigger := j), path.steps, path.value, render).result
  }

  /** A Trigger pass for ordinal k returns what the path returns when k is forced on a fresh state. */
  lemma ForcedFromAnyState<T, E>(s: Snapshot, path: CodePath<T, E>, render: E -> string, k: int)
    ensures Run(s.(mode := Trigger, trigger := k), path.steps, path.value, render).result == Forced(path, render, k)
  {
    RunDependsOnModeAndTrigger(s.(mode := Trigger, trigger := k), DefaultSnapshot().(mode := Trigger, trigger := k),
                               path.steps, path.value, render);
  }

  /**
   * The Trigger passes from ordinal k on end without a deviation exactly when
   * every ordinal from k to n makes the path fail; the record then reports n of
   * n, and each block ran n + 1 times counting the Count pass.
   */
  lemma {:induction false} TriggerPassesClean<T, E>(s: Snapshot, path: CodePath<T, E>, render: E -> string, k: int, n: int)
    requires 1 <= k <= n + 1
    ensures var x := TriggerPasses(s, path, render, k, n);
            && x.result.expectedTriggerCount == n
            && (x.result.unexpectedResult.None? <==> forall j :: k <= j <= n ==> Forced(path, render, j).Err?)
            && (x.result.unexpectedResult.None? ==>
                  x.result.triggerCount == n && x.beforeRuns == n + 1 && x.afterRuns == n + 1)
    decreases n - k + 1
  {
    if k <= n {
      var triggered := Run(s.(mode := Trigger, trigger := k), path.steps, path.value, render);
      ForcedFromAnyState(s, path, render, k);
      var x := TriggerPasses(s, path, render, k, n);
      if triggered.result.Ok? {
        assert x == Exhaustion(triggered.after, CodePathResult(n, k - 1, Some(triggered.result)), k + 1, k);
      } else {
        assert x == TriggerPasses(triggered.after, path, render, k + 1, n);
        TriggerPassesClean(triggered.after, path, render, k + 1, n);
      }
    } else {
      assert TriggerPasses(s, path, render, k, n) == Exhaustion(s, CodePathResult(n, k - 1, None), k, k);
    }
  }

  /**
   * Trigger passes that deviate stop at the first ordinal m from k on whose
   * forced pass returned Ok; the record keeps `trigger = m - 1` and that Ok, and
   * `before` ran m + 1 times and `after` m times counting the Count pass.
   */
  lemma {:induction false} TriggerPassesStop<T, E>(s: Snapshot, path: CodePath<T, E>, render: E -> string, k: int, n: int)
    requires 1 <= k <= n + 1
    ensures var x := TriggerPasses(s, path, render, k, n);
            x.result.unexpectedResult.Some? ==>
              var m := x.result.triggerCount + 1;
              && k <= m <= n
              && Forced(path, render, m).Ok?
              && x.result.unexpectedResult == Some(Forced(path, render, m))
              && (forall j :: k <= j < m ==> Forced(path, render, j).Err?)
              && x.beforeRuns == m + 1 && x.afterRuns == m
    decreases n - k + 1
  {
    if k <= n {
      var triggered := Run(s.(mode := Trigger, trigger := k), path.steps, path.value, render);
      ForcedFromAnyState(s, path, render, k);
      var x := TriggerPasses(s, path, render, k, n);
      if triggered.result.Ok? {
        assert x == Exhaustion(triggered.after, CodePathResult(n, k - 1, Some(triggered.result)), k + 1, k);
      } else {
        assert x == TriggerPasses(triggered.after, path, render, k + 1, n);
        TriggerPassesStop(triggered.after, path, render, k + 1, n);
      }
    } else {
      assert TriggerPasses(s, path, render, k, n) == Exhaustion(s, CodePathResult(n, k - 1, None), k, k);
    }
  }

  /** The Count pass inside an exhaustion run behaves as it would from a fresh state. */
  lemma CountPassFromAnyState<T, E>(s: Snapshot, path: CodePath<T, E>, render: E -> string)
    ensures var counted := Run(s.(mode := Count, counter := 0), path.steps, path.value, render);
            && counted.result == CountPass(path, render).result
            && counted.outputs == CountPass(path, render).outputs
            && counted.after.counter == |counted.outputs|
  {
    RunDependsOnModeAndTrigger(s.(mode := Count, counter := 0), DefaultSnapshot(), path.steps, path.value, render);
    CountPassIsPassThrough(s.(mode := Count, counter := 0), path.steps, path.value, render);
  }

  // ---------------------------------------------------------------------------
  // Properties of the driver

  /**
   * The exhaustion law: a run ends without a deviation exactly when the Count
   * pass succeeds and, for every ordinal j from 1 to the number of probes it
   * reached, forcing ordinal j makes the path fail; and for a record the driver
   * produced, `success()` holds exactly when there was no deviation.
   */
  lemma ExhaustionLaw<T, E>(s: Snapshot, path: CodePath<T, E>, render: E -> string)
    ensures var x := Exhaust(s, path, render);
            var counted := CountPass(path, render);
            && (x.result.unexpectedResult.None? <==>
                  counted.result.Ok? && forall j :: 1 <= j <= |counted.outputs| ==> Forced(path, render, j).Err?)
            && (x.result.Success() <==> x.result.unexpectedResult.None?)
  {
    CountPassFromAnyState(s, path, render);
    var counted := Run(s.(mode := Count, counter := 0), path.steps, path.value, render);
    var x := Exhaust(s, path, render);
    if counted.result.Err? {
      assert x == Exhaustion(counted.after, CodePathResult(I64_MAX, -1, Some(counted.result)), 1, 0);
    } else {
      assert x == TriggerPasses(counted.after, path, render, 1, counted.after.counter);
      TriggerPassesClean(counted.after, path, render, 1, counted.after.counter);
      TriggerPassesStop(counted.after, path, render, 1, counted.after.counter);
    }
  }

  /**
   * The record after a failing Count pass: `expected = i64::MAX`,
   * `trigger = -1` and that Err, after one run of `before` and none of `after`.
   */
  lemma ExhaustCountFails<T, E>(s: Snapshot, path: CodePath<T, E>, render: E -> string)
    requires CountPass(path, render).result.Err?
    ensures var x := Exhaust(s, path, render);
            && x.result == CodePathResult(I64_MAX, -1, Some(CountPass(path, render).result))
            && x.beforeRuns == 1 && x.afterRuns == 0
  {
    CountPassFromAnyState(s, path, render);
  }

  /**
   * The record after a successful Count pass: `expected` is the number of
   * probes it reached, and a run without a deviation has both counts equal and
   * ran each block once per pass (probes + 1 times).
   */
  lemma ExhaustRecord<T, E>(s: Snapshot, path: CodePath<T, E>, render: E -> string)
    requires CountPass(path, render).result.Ok?
    ensures var x := Exhaust(s, path, render);
            var n := |CountPass(path, render).outputs|;
            && x.result.expectedTriggerCount == n
            && (x.result.unexpectedResult.None? ==>
                  x.result.triggerCount == n && x.beforeRuns == n + 1 && x.afterRuns == n + 1)
  {
    CountPassFromAnyState(s, path, render);
    var counted := Run(s.(mode := Count, counter := 0), path.steps, path.value, render);
    var x := Exhaust(s, path, render);
    assert x == TriggerPasses(counted.after, path, render, 1, counted.after.counter);
    TriggerPassesClean(counted.after, path, render, 1, counted.after.counter);
  }

  /**
   * A run that deviates stops at ordinal m, the first whose forced pass
   * returned Ok (every earlier ordinal made the path fail); it records
   * `trigger = m - 1` and that Ok, with `before` run m + 1 times and `after` m.
   */
  lemma ExhaustStopsAt<T, E>(s: Snapshot, path: CodePath<T, E>, render: E -> string)
    requires CountPass(path, render).result.Ok?
    requires Exhaust(s, path, render).result.unexpectedResult.Some?
    ensures var x := Exhaust(s, path, render);
            var m := x.result.triggerCount + 1;
            && 1 <= m <= |CountPass(path, render).outputs|
            && Forced(path, render, m).Ok?
            && x.result.unexpectedResult == Some(Forced(path, render, m))
            && (forall j :: 1 <= j < m ==> Forced(path, render, j).Err?)
            && x.beforeRuns == m + 1 && x.afterRuns == m
  {
    CountPassFromAnyState(s, path, render);
    var counted := Run(s.(mode := Count, counter := 0), path.steps, path.value, render);
    var x := Exhaust(s, path, render);
    assert x == TriggerPasses(counted.after, path, render, 1, counted.after.counter);
    TriggerPassesStop(counted.after, path, render, 1, counted.after.counter);
  }

  // ---------------------------------------------------------------------------
  // Paths whose probes all wrap successes and all propagate

  /** Every probe wraps an Ok and the code returns on any Err from it. */
  predicate Straight<T, E>(steps: seq<Step<T, E>>)
  {
    forall i :: 0 <= i < |steps| ==> steps[i].call.res.Ok? && steps[i].propagate
  }

  /** Dropping the first probe of a straight path leaves a straight path. */
  lemma StraightTail<T, E>(steps: seq<Step<T, E>>)
    requires steps != [] && Straight(steps)
    ensures Straight(steps[1..])
  {
    forall i | 0 <= i < |steps[1..]| ensures steps[1..][i].call.res.Ok? && steps[1..][i].propagate {
      assert steps[1..][i] == steps[i + 1];
    }
  }

  /** Counting a straight path reaches every probe and returns the path's value. */
  lemma {:induction false} CountStraight<T, E>(steps: seq<Step<T, E>>, value: T)
    requires Straight(steps)
    ensures RunDisabled(steps, value) == Ok(value)
    decreases |steps|
  {
    if steps != [] {
      StraightTail(steps);
      CountStraight(steps[1..], value);
    }
  }

  /**
   * Forcing ordinal j on a straight path: probes 1 .. j-1 pass their results
   * through, probe j injects its error, and the path returns exactly that error
   * without reaching any later probe.
   */
  lemma {:induction false} TriggerStraight<T, E>(s: Snapshot, steps: seq<Step<T, E>>, value: T, render: E -> string)
    requires s.mode == Trigger && 1 <= s.trigger <= |steps| && Straight(steps)
    ensures var run := Run(s, steps, value, render);
            && run.result == Err(steps[s.trigger - 1].call.err)
            && |run.outputs| == s.trigger
            && forall i :: 0 <= i < s.trigger - 1 ==> run.outputs[i] == steps[i].call.res
    decreases |steps|
  {
    var p := Visit(s, steps[0].call, render);
    VisitInTriggerMode(s, steps[0].call, render);
    assert steps[0].call.res.Ok? && steps[0].propagate;
    if s.trigger == 1 {
      assert p.result == Err(steps[0].call.err);
      assert Run(s, steps, value, render) == PathRun(p.after, [p.result], p.result);
    } else {
      assert p.result == steps[0].call.res;
      assert p.after.mode == Trigger && p.after.trigger == s.trigger - 1;
      StraightTail(steps);
      TriggerStraight(p.after, steps[1..], value, render);
      var run := Run(s, steps, value, render);
      var rest := Run(p.after, steps[1..], value, render);
      assert run == PathRun(rest.after, [p.result] + rest.outputs, rest.result);
      assert steps[1..][s.trigger - 2] == steps[s.trigger - 1];
      forall i | 0 <= i < s.trigger - 1
        ensures run.outputs[i] == steps[i].call.res
      {
        if i > 0 {
          assert run.outputs[i] == rest.outputs[i - 1];
          assert steps[1..][i - 1] == steps[i];
        } else {
          assert run.outputs[0] == p.result;
        }
      }
    }
  }

  /**
   * A path of k probes that all wrap successes and all propagate is exhausted
   * cleanly: `expected = trigger = k`, no deviation, and `success()` holds.
   * With k = 0 this is the 0/0 record.
   */
  lemma ExhaustStraight<T, E>(s: Snapshot, path: CodePath<T, E>, render: E -> string)
    requires Straight(path.steps)
    ensures Exhaust(s, path, render).result == CodePathResult(|path.steps|, |path.steps|, None)
    ensures Exhaust(s, path, render).result.Success()
  {
    var counted := CountPass(path, render);
    CountStraight(path.steps, path.value);
    CountPassIsPassThrough(DefaultSnapshot(), path.steps, path.value, render);
    assert |counted.outputs| == |path.steps| by {
      if |counted.outputs| < |path.steps| {
        // the path stopped early, which only an Err from a propagating probe can do
        StopsOnlyOnErr(DefaultSnapshot(), path.steps, path.value, render);
      }
    }
    forall j | 1 <= j <= |counted.outputs|
      ensures Forced(path, render, j).Err?
    {
      TriggerStraight(DefaultSnapshot().(mode := Trigger, trigger := j), path.steps, path.value, render);
    }
    ExhaustionLaw(s, path, render);
    ExhaustRecord(s, path, render);
  }

  /** A path that reaches fewer probes than it has returned an Err. */
  lemma {:induction false} StopsOnlyOnErr<T, E>(s: Snapshot, steps: seq<Step<T, E>>, value: T, render: E -> string)
    ensures |Run(s, steps, value, render).outputs| < |steps| ==> Run(s, steps, value, render).result.Err?
    decreases |steps|
  {
    if steps != [] {
      var p := Visit(s, steps[0].call, render);
      StopsOnlyOnErr(p.after, steps[1..], value, render);
    }
  }
}
