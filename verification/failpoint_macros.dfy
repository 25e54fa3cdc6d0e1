/**
 * The current `failpoint!` probe: it receives a result the caller has already
 * computed and one candidate error, and, depending on the injection state,
 * passes the result through or substitutes the error.
 *
 * `Visit` is the probe as a function on the state's value; `Failpoint` is the
 * probe acting in place on an `Inner`. `VisitAll` runs a sequence of probe
 * visits, which may belong to one or to several executions of a code path.
 */
module FailpointMacros {
  import opened Outcomes
  import opened FailpointState

  /** The arguments of one probe visit: the wrapped result, the candidate error, the call site. */
  datatype ProbeCall<T, E> = ProbeCall(res: Result<T, E>, err: E, loc: Location)

  /** The state after a visit and the result the probe hands back. */
  datatype ProbeStep<T, E> = ProbeStep(after: Snapshot, result: Result<T, E>)

  /** The report a visit that lands on the countdown's zero makes (`render` is `{:?}`). */
  function ReportFor<T, E>(call: ProbeCall<T, E>, render: E -> string): string
  {
    if call.res.Ok? then TriggerMessage(call.loc, render(call.err))
    else UnexpectedMessage(call.loc, render(call.res.error))
  }

  /** One visit of the probe, the `@internal` arm of `failpoint!`. */
  function Visit<T, E>(s: Snapshot, call: ProbeCall<T, E>, render: E -> string): ProbeStep<T, E>
  {
    if s.mode == Count then
      ProbeStep(s.(counter := s.counter + 1), call.res)
    else
      var t := s.(trigger := s.trigger - 1);
      if t.trigger != 0 then ProbeStep(t, call.res)
      else if call.res.Ok? then ProbeStep(Logged(t, 1, ReportFor(call, render)), Err(call.err))
      else ProbeStep(Logged(t, 1, ReportFor(call, render)), call.res)
  }

  /** The probe acting on the shared state `g`. */
  method Failpoint<T, E>(g: Inner, res: Result<T, E>, err: E, loc: Location, render: E -> string)
    returns (r: Result<T, E>)
    modifies g
    ensures g.View() == Visit(old(g.View()), ProbeCall(res, err, loc), render).after
    ensures r == Visit(old(g.View()), ProbeCall(res, err, loc), render).result
  {
    if g.mode == Count {
      g.counter := g.counter + 1;
      r := res;
    } else {
      g.trigger := g.trigger - 1;
      if g.trigger == 0 {
        if res.Ok? {
          g.ReportTrigger(loc, render(err));
          r := Err(err);
        } else {
          g.ReportUnexpectedFailure(loc, render(res.error));
          r := res;
        }
      } else {
        r := res;
      }
    }
  }

  /** The probe of the build with failpoints compiled out: the wrapped result, untouched. */
  function DisabledFailpoint<T, E>(res: Result<T, E>, err: E): (r: Result<T, E>)
    ensures r == res
  {
    res
  }

  // ---------------------------------------------------------------------------
  // One visit

  /** In Count mode a visit adds one to the counter, returns the result as it came and touches nothing else. */
  lemma VisitInCountMode<T, E>(s: Snapshot, call: ProbeCall<T, E>, render: E -> string)
    requires s.mode == Count
    ensures Visit(s, call, render).after == s.(counter := s.counter + 1)
    ensures Visit(s, call, render).result == call.res
  {
  }

  /**
   * In Trigger mode a visit takes one off the countdown and leaves the counter,
   * the mode and the logging configuration alone. Only when the countdown
   * reaches zero does anything else happen: an Ok result is replaced by the
   * candidate error and a "triggered" report is made; an Err result is kept
   * (never replaced) and an "unexpected failure" report is made.
   */
  lemma VisitInTriggerMode<T, E>(s: Snapshot, call: ProbeCall<T, E>, render: E -> string)
    requires s.mode == Trigger
    ensures var step := Visit(s, call, render);
            && step.after.(log := s.log) == s.(trigger := s.trigger - 1)
            && (s.trigger != 1 ==> step.after.log == s.log && step.result == call.res)
            && (s.trigger == 1 && call.res.Ok? ==>
                  step.result == Err(call.err)
                  && step.after.log == Logged(s, 1, TriggerMessage(call.loc, render(call.err))).log)
            && (s.trigger == 1 && call.res.Err? ==>
                  step.result == call.res
                  && step.after.log == Logged(s, 1, UnexpectedMessage(call.loc, render(call.res.error))).log)
  {
  }

  // ---------------------------------------------------------------------------
  // Sequences of visits

  /** The state after a run of visits, and the result each visit returned. */
  datatype VisitRun<T, E> = VisitRun(after: Snapshot, results: seq<Result<T, E>>)

  function VisitAll<T, E>(s: Snapshot, calls: seq<ProbeCall<T, E>>, render: E -> string): VisitRun<T, E>
    decreases |calls|
  {
    if calls == [] then VisitRun(s, [])
    else
      var first := Visit(s, calls[0], render);
      var rest := VisitAll(first.after, calls[1..], render);
      VisitRun(rest.after, [first.result] + rest.results)
  }

  /**
   * Counting: k visits in Count mode add exactly k to the counter (so after
   * `start_counter` the count is k), change nothing else and return every
   * wrapped result as it came.
   */
  lemma {:induction false} CountModeVisits<T, E>(s: Snapshot, calls: seq<ProbeCall<T, E>>, render: E -> string)
    requires s.mode == Count
    ensures VisitAll(s, calls, render).after == s.(counter := s.counter + |calls|)
    ensures |VisitAll(s, calls, render).results| == |calls|
    ensures forall i :: 0 <= i < |calls| ==> VisitAll(s, calls, render).results[i] == calls[i].res
    decreases |calls|
  {
    if calls != [] {
      var first := Visit(s, calls[0], render);
      CountModeVisits(first.after, calls[1..], render);
    }
  }

  /** One Trigger-mode visit, with its report written as `ReportFor`. */
  lemma TriggerStep<T, E>(s: Snapshot, call: ProbeCall<T, E>, render: E -> string)
    requires s.mode == Trigger
    ensures var step := Visit(s, call, render);
            && step.after.(log := s.log) == s.(trigger := s.trigger - 1)
            && step.result == (if s.trigger == 1 && call.res.Ok? then Err(call.err) else call.res)
            && step.after.log == s.log + if s.trigger == 1 && s.verbosity >= 1 && s.hasLogger
                                         then [ReportFor(call, render)] else []
  {
  }

  /**
   * The countdown: after `start_trigger(n)` the visits share one countdown,
   * whichever code-path execution they belong to. Only visit number n (counting
   * from 1) reaches zero, so at most one visit fires; it substitutes its
   * candidate error when its result was Ok, and every other visit returns its
   * result unchanged. The log gains the one report of that visit, and nothing
   * when no visit reaches zero. Each visit takes exactly one off the countdown
   * and none touches the counter.
   */
  lemma {:induction false} TriggerModeVisits<T, E>(s: Snapshot, calls: seq<ProbeCall<T, E>>, render: E -> string)
    requires s.mode == Trigger
    ensures var run := VisitAll(s, calls, render);
            && run.after.(log := s.log) == s.(trigger := s.trigger - |calls|)
            && |run.results| == |calls|
            && (forall i :: 0 <= i < |calls| ==>
                  run.results[i] == if i + 1 == s.trigger && calls[i].res.Ok? then Err(calls[i].err) else calls[i].res)
            && run.after.log == s.log + if 1 <= s.trigger <= |calls| && s.verbosity >= 1 && s.hasLogger
                                        then [ReportFor(calls[s.trigger - 1], render)] else []
    decreases |calls|
  {
    if calls != [] {
      var first := Visit(s, calls[0], render);
      var rest := VisitAll(first.after, calls[1..], render);
      TriggerStep(s, calls[0], render);
      TriggerModeVisits(first.after, calls[1..], render);
      if 2 <= s.trigger <= |calls| {
        assert calls[1..][s.trigger - 2] == calls[s.trigger - 1];
      }
      var run := VisitAll(s, calls, render);
      assert run == VisitRun(rest.after, [first.result] + rest.results);
      forall i | 0 <= i < |calls|
        ensures run.results[i] == if i + 1 == s.trigger && calls[i].res.Ok? then Err(calls[i].err) else calls[i].res
      {
        if i > 0 {
          assert run.results[i] == rest.results[i - 1];
          assert calls[1..][i - 1] == calls[i];
        }
      }
    }
  }
}
