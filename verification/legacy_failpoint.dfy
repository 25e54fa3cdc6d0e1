/**
 * The older, self-contained snapshot of the library kept in `src/lib.rs`. It has
 * its own state (with the location of the last probe that fired) and a probe
 * with one, two or three candidate errors whose arms count and fire by rules of
 * their own, modelled here as they are written.
 *
 * The reporter callback (a plain `fn`) becomes the flag `hasReporter` together with the
 * ghost sequence of every location handed to it.
 */
module LegacyFailpoint {
  import opened Outcomes

  /** `i64::MAX`, the trigger value of a fresh state. */
  const I64_MAX: int := 0x7FFF_FFFF_FFFF_FFFF

  datatype Mode = Count | Trigger

  /** Where a probe fired, and which of its candidates (`errNo`) it reported. */
  datatype Location = Location(crateName: Option<string>, fileName: string, lineNo: nat, desc: string, errNo: nat)

  /** The call site a probe captures: crate, file, line and description (`""` when none is given). */
  datatype Site = Site(crateName: Option<string>, fileName: string, lineNo: nat, desc: string)

  /** The fields of the legacy state, with `reports` the locations handed to the reporter. */
  datatype Snapshot = Snapshot(mode: Mode, counter: int, trigger: int, hasReporter: bool,
                               triggeredAt: Option<Location>, reports: seq<Location>)

  /** The state `Inner::default` builds. */
  function DefaultSnapshot(): Snapshot
  {
    Snapshot(Count, 0, I64_MAX, false, None, [])
  }

  /** The state after `_report` for candidate `errNo` of the probe at `site`. */
  function Reported(s: Snapshot, site: Site, errNo: nat): Snapshot
  {
    var point := Location(site.crateName, site.fileName, site.lineNo, site.desc, errNo);
    s.(triggeredAt := Some(point), reports := if s.hasReporter then s.reports + [point] else s.reports)
  }

  /** The state after a visit and the result the probe hands back. */
  datatype ProbeStep<T, E> = ProbeStep(after: Snapshot, result: Result<T, E>)

  /** The one-candidate arm: decrement, then fire on zero. */
  function Arm1<T, E>(s: Snapshot, res: Result<T, E>, err: E, site: Site): ProbeStep<T, E>
  {
    if s.mode == Count then ProbeStep(s.(counter := s.counter + 1), res)
    else
      var t := s.(trigger := s.trigger - 1);
      if t.trigger == 0 then ProbeStep(Reported(t, site, 2), Err(err)) else ProbeStep(t, res)
  }

  /** The two-candidate arm: compare, then decrement. */
  function Arm2<T, E>(s: Snapshot, res: Result<T, E>, err1: E, err2: E, site: Site): ProbeStep<T, E>
  {
    if s.mode == Count then ProbeStep(s.(counter := s.counter + 2), res)
    else
      var t := s.(trigger := s.trigger - 1);
      if s.trigger == 2 then ProbeStep(Reported(t, site, 1), Err(err1))
      else if s.trigger == 1 then ProbeStep(Reported(t, site, 2), Err(err2))
      else ProbeStep(t, res)
  }

  /** The three-candidate arm: compare, then decrement. */
  function Arm3<T, E>(s: Snapshot, res: Result<T, E>, err1: E, err2: E, err3: E, site: Site): ProbeStep<T, E>
  {
    if s.mode == Count then ProbeStep(s.(counter := s.counter + 2), res)
    else
      var t := s.(trigger := s.trigger - 1);
      if s.trigger == 3 then ProbeStep(Reported(t, site, 1), Err(err1))
      else if s.trigger == 2 then ProbeStep(Reported(t, site, 2), Err(err2))
      else if s.trigger == 1 then ProbeStep(Reported(t, site, 3), Err(err3))
      else ProbeStep(t, res)
  }

  /** The legacy state (`Inner` of `src/lib.rs`), updated in place. */
  class Inner {
    var mode: Mode
    var counter: int
    /** Whether a reporter is installed (the public `reporter` field). */
    var hasReporter: bool
    var trigger: int
    var triggeredAt: Option<Location>
    /** Every location the reporter has been called with, oldest first. */
    ghost var reports: seq<Location>

    ghost function View(): Snapshot
      reads this
    {
      Snapshot(mode, counter, trigger, hasReporter, triggeredAt, reports)
    }

    /** `Inner::default`: Count mode, counter 0, no reporter, trigger `i64::MAX`, nothing triggered. */
    constructor ()
      ensures View() == DefaultSnapshot()
      ensures mode == Count && counter == 0 && trigger == I64_MAX
      ensures !hasReporter && triggeredAt == None && reports == []
    {
      mode := Count;
      counter := 0;
      hasReporter := false;
      trigger := I64_MAX;
      triggeredAt := None;
      reports := [];
    }

    /** `_report`: remembers where the probe fired, with `errNo`, and hands that to the reporter if one is set. */
    method Report(crateName: Option<string>, fileName: string, lineNo: nat, desc: string, errNo: nat)
      modifies this
      ensures View() == Reported(old(View()), Site(crateName, fileName, lineNo, desc), errNo)
    {
      var point := Location(crateName, fileName, lineNo, desc, errNo);
      triggeredAt := Some(point);
      if hasReporter {
        reports := reports + [point];
      }
    }

    /** `start_counter`: Count mode with the counter at zero; the trigger and `triggeredAt` are kept. */
    method StartCounter()
      modifies this
      ensures View() == old(View()).(mode := Count, counter := 0)
    {
      mode := Count;
      counter := 0;
    }

    /** `start_trigger(n)`: Trigger mode with the countdown at `n` and nothing triggered yet. */
    method StartTrigger(triggerAfter: int)
      modifies this
      ensures View() == old(View()).(mode := Trigger, trigger := triggerAfter, triggeredAt := None)
    {
      mode := Trigger;
      trigger := triggerAfter;
      triggeredAt := None;
    }

    /** `get_count`: reads the counter and changes nothing. */
    method GetCount() returns (c: int)
      ensures c == counter
    {
      c := counter;
    }

    /** `get_triggered_at`: where the last probe fired since `start_trigger`, if any; changes nothing. */
    method GetTriggeredAt() returns (at: Option<Location>)
      ensures at == triggeredAt
    {
      at := triggeredAt;
    }
  }

  /** `failpoint!(exp, desc, [err])` acting on the shared state `g`. */
  method Failpoint1<T, E>(g: Inner, res: Result<T, E>, err: E, site: Site) returns (r: Result<T, E>)
    modifies g
    ensures g.View() == Arm1(old(g.View()), res, err, site).after
    ensures r == Arm1(old(g.View()), res, err, site).result
  {
    if g.mode == Count {
      g.counter := g.counter + 1;
      r := res;
    } else {
      g.trigger := g.trigger - 1;
      if g.trigger == 0 {
        g.Report(site.crateName, site.fileName, site.lineNo, site.desc, 2);
        r := Err(err);
      } else {
        r := res;
      }
    }
  }

  /** `failpoint!(exp, desc, [err1, err2])` acting on the shared state `g`. */
  method Failpoint2<T, E>(g: Inner, res: Result<T, E>, err1: E, err2: E, site: Site) returns (r: Result<T, E>)
    modifies g
    ensures g.View() == Arm2(old(g.View()), res, err1, err2, site).after
    ensures r == Arm2(old(g.View()), res, err1, err2, site).result
  {
    if g.mode == Count {
      g.counter := g.counter + 2;
      r := res;
    } else {
      if g.trigger == 2 {
        g.trigger := g.trigger - 1;
        g.Report(site.crateName, site.fileName, site.lineNo, site.desc, 1);
        r := Err(err1);
      } else if g.trigger == 1 {
        g.trigger := g.trigger - 1;
        g.Report(site.crateName, site.fileName, site.lineNo, site.desc, 2);
        r := Err(err2);
      } else {
        g.trigger := g.trigger - 1;
        r := res;
      }
    }
  }

  /** `failpoint!(exp, desc, [err1, err2, err3])` acting on the shared state `g`. */
  method Failpoint3<T, E>(g: Inner, res: Result<T, E>, err1: E, err2: E, err3: E, site: Site) returns (r: Result<T, E>)
    modifies g
    ensures g.View() == Arm3(old(g.View()), res, err1, err2, err3, site).after
    ensures r == Arm3(old(g.View()), res, err1, err2, err3, site).result
  {
    if g.mode == Count {
      g.counter := g.counter + 2;
      r := res;
    } else {
      if g.trigger == 3 {
        g.trigger := g.trigger - 1;
        g.Report(site.crateName, site.fileName, site.lineNo, site.desc, 1);
        r := Err(err1);
      } else if g.trigger == 2 {
        g.trigger := g.trigger - 1;
        g.Report(site.crateName, site.fileName, site.lineNo, site.desc, 2);
        r := Err(err2);
      } else if g.trigger == 1 {
        g.trigger := g.trigger - 1;
        g.Report(site.crateName, site.fileName, site.lineNo, site.desc, 3);
        r := Err(err3);
      } else {
        g.trigger := g.trigger - 1;
        r := res;
      }
    }
  }

  // ---------------------------------------------------------------------------
  // The arms as written

  /**
   * One candidate: Count mode adds 1 and passes the result through. Trigger
   * mode takes one off the countdown and, when that leaves zero, returns the
   * candidate error whatever the wrapped result was, reporting candidate number 2.
   */
  lemma Arm1Rules<T, E>(s: Snapshot, res: Result<T, E>, err: E, site: Site)
    ensures s.mode == Count ==> Arm1(s, res, err, site) == ProbeStep(s.(counter := s.counter + 1), res)
    ensures s.mode == Trigger ==>
              var step := Arm1(s, res, err, site);
              && step.after.(triggeredAt := s.triggeredAt, reports := s.reports) == s.(trigger := s.trigger - 1)
              && (s.trigger == 1 ==>
                    step.result == Err(err)
                    && step.after.triggeredAt == Some(Location(site.crateName, site.fileName, site.lineNo, site.desc, 2)))
              && (s.trigger != 1 ==> step == ProbeStep(s.(trigger := s.trigger - 1), res))
  {
  }

  /**
   * Two candidates: Count mode adds 2. Trigger mode compares before it
   * decrements: a countdown of 2 gives the first candidate, 1 the second, and
   * any other value passes the result through; every visit takes exactly one off.
   */
  lemma Arm2Rules<T, E>(s: Snapshot, res: Result<T, E>, err1: E, err2: E, site: Site)
    ensures s.mode == Count ==> Arm2(s, res, err1, err2, site) == ProbeStep(s.(counter := s.counter + 2), res)
    ensures s.mode == Trigger ==>
              var step := Arm2(s, res, err1, err2, site);
              && step.after.(triggeredAt := s.triggeredAt, reports := s.reports) == s.(trigger := s.trigger - 1)
              && step.result == (if s.trigger == 2 then Err(err1) else if s.trigger == 1 then Err(err2) else res)
              && (s.trigger in {1, 2} ==>
                    step.after.triggeredAt == Some(Location(site.crateName, site.fileName, site.lineNo, site.desc, 3 - s.trigger)))
              && (s.trigger !in {1, 2} ==> step.after == s.(trigger := s.trigger - 1))
  {
  }

  /**
   * Three candidates: Count mode adds only 2. Trigger mode compares before it
   * decrements: 3 gives the first candidate, 2 the second, 1 the third, and any
   * other value passes the result through; every visit takes exactly one off.
   */
  lemma Arm3Rules<T, E>(s: Snapshot, res: Result<T, E>, err1: E, err2: E, err3: E, site: Site)
    ensures s.mode == Count ==> Arm3(s, res, err1, err2, err3, site) == ProbeStep(s.(counter := s.counter + 2), res)
    ensures s.mode == Trigger ==>
              var step := Arm3(s, res, err1, err2, err3, site);
              && step.after.(triggeredAt := s.triggeredAt, reports := s.reports) == s.(trigger := s.trigger - 1)
              && step.result == (if s.trigger == 3 then Err(err1) else if s.trigger == 2 then Err(err2)
                                 else if s.trigger == 1 then Err(err3) else res)
              && (s.trigger in {1, 2, 3} ==>
                    step.after.triggeredAt == Some(Location(site.crateName, site.fileName, site.lineNo, site.desc, 4 - s.trigger)))
              && (s.trigger !in {1, 2, 3} ==> step.after == s.(trigger := s.trigger - 1))
  {
  }

  /** `_report` records the location it was given, `errNo` included, and the reporter sees it only if one is set. */
  lemma ReportedRecords(s: Snapshot, site: Site, errNo: nat)
    ensures var point := Location(site.crateName, site.fileName, site.lineNo, site.desc, errNo);
            && Reported(s, site, errNo).triggeredAt == Some(point)
            && Reported(s, site, errNo).reports == s.reports + (if s.hasReporter then [point] else [])
            && Reported(s, site, errNo).(triggeredAt := s.triggeredAt, reports := s.reports) == s
  {
  }

  /**
   * As written, a two-candidate probe followed by a one-candidate probe counts
   * 3 ordinals, yet forcing ordinal 3 makes neither probe fire: the first uses
   * up only one ordinal of the two it counted.
   */
  lemma LegacyOrdinalSkipped<T, E>(v: T, e1: E, e2: E, e3: E, site1: Site, site2: Site)
    ensures var c1 := Arm2(DefaultSnapshot(), Ok(v), e1, e2, site1);
            var c2 := Arm1(c1.after, Ok(v), e3, site2);
            c2.after.counter == 3
    ensures var start := DefaultSnapshot().(mode := Trigger, trigger := 3);
            var t1 := Arm2(start, Ok(v), e1, e2, site1);
            var t2 := Arm1(t1.after, Ok(v), e3, site2);
            && t1.result == Ok(v) && t2.result == Ok(v) && t2.after.triggeredAt == None
  {
  }

  /**
   * As written, a lone three-candidate probe counts 2 ordinals; forcing them
   * yields the third and the second candidate, so the first candidate is never
   * forced by the ordinals the Count pass reports.
   */
  lemma LegacyFirstOfThreeUnreachable<T, E>(v: T, e1: E, e2: E, e3: E, site: Site)
    ensures Arm3(DefaultSnapshot(), Ok(v), e1, e2, e3, site).after.counter == 2
    ensures Arm3(DefaultSnapshot().(mode := Trigger, trigger := 1), Ok(v), e1, e2, e3, site).result == Err(e3)
    ensures Arm3(DefaultSnapshot().(mode := Trigger, trigger := 2), Ok(v), e1, e2, e3, site).result == Err(e2)
  {
  }

  // ---------------------------------------------------------------------------
  // The multi-candidate probe corrected

  /** A visit of a probe with candidates `errs` (one to three in the source). */
  datatype MultiCall<T, E> = MultiCall(res: Result<T, E>, errs: seq<E>, site: Site)

  /**
   * The probe with each candidate an ordinal of its own: Count mode adds one per
   * candidate; Trigger mode takes one off the countdown per candidate, and the
   * candidate on which the countdown reaches zero (the first remaining ordinal
   * maps to the first candidate) replaces the result.
   */
  function ArmCorrected<T, E>(s: Snapshot, call: MultiCall<T, E>): ProbeStep<T, E>
  {
    var k := |call.errs|;
    if s.mode == Count then ProbeStep(s.(counter := s.counter + k), call.res)
    else
      var t := s.(trigger := s.trigger - k);
      if 1 <= s.trigger <= k then ProbeStep(Reported(t, call.site, s.trigger), Err(call.errs[s.trigger - 1]))
      else ProbeStep(t, call.res)
  }

  /**
   * One corrected visit in Trigger mode takes its number of candidates off the
   * countdown and fires exactly when the countdown falls among them, returning
   * the candidate at that position; otherwise the result passes through.
   */
  lemma CorrectedTriggerStep<T, E>(s: Snapshot, call: MultiCall<T, E>)
    requires s.mode == Trigger
    ensures var step := ArmCorrected(s, call);
            && step.after.mode == Trigger
            && step.after.trigger == s.trigger - |call.errs|
            && step.result == if 1 <= s.trigger <= |call.errs| then Err(call.errs[s.trigger - 1]) else call.res
  {
  }

  /** The corrected probe acting on the shared state `g`. */
  method FailpointCorrected<T, E>(g: Inner, res: Result<T, E>, errs: seq<E>, site: Site) returns (r: Result<T, E>)
    modifies g
    ensures g.View() == ArmCorrected(old(g.View()), MultiCall(res, errs, site)).after
    ensures r == ArmCorrected(old(g.View()), MultiCall(res, errs, site)).result
  {
    var k := |errs|;
    if g.mode == Count {
      g.counter := g.counter + k;
      r := res;
    } else {
      var remaining := g.trigger;
      g.trigger := g.trigger - k;
      if 1 <= remaining <= k {
        g.Report(site.crateName, site.fileName, site.lineNo, site.desc, remaining);
        r := Err(errs[remaining - 1]);
      } else {
        r := res;
      }
    }
  }

  /** With a single candidate the corrected probe does what the one-candidate arm does, up to the reported candidate number. */
  lemma CorrectedAgreesWithArm1<T, E>(s: Snapshot, res: Result<T, E>, err: E, site: Site)
    ensures ArmCorrected(s, MultiCall(res, [err], site)).result == Arm1(s, res, err, site).result
    ensures ArmCorrected(s, MultiCall(res, [err], site)).after.(triggeredAt := None, reports := s.reports)
         == Arm1(s, res, err, site).after.(triggeredAt := None, reports := s.reports)
  {
  }

  /** The number of ordinals a run of visits counts. */
  function Candidates<T, E>(calls: seq<MultiCall<T, E>>): nat
    decreases |calls|
  {
    if calls == [] then 0 else |calls[0].errs| + Candidates(calls[1..])
  }

  lemma {:induction false} CandidatesAppend<T, E>(a: seq<MultiCall<T, E>>, b: seq<MultiCall<T, E>>)
    ensures Candidates(a + b) == Candidates(a) + Candidates(b)
    decreases |a|
  {
    if a == [] {
      assert a + b == b;
    } else {
      assert (a + b)[0] == a[0];
      assert (a + b)[1..] == a[1..] + b;
      CandidatesAppend(a[1..], b);
    }
  }

  /** The state after a run of visits and what each visit returned. */
  datatype MultiRun<T, E> = MultiRun(after: Snapshot, results: seq<Result<T, E>>)

  function VisitAllCorrected<T, E>(s: Snapshot, calls: seq<MultiCall<T, E>>): MultiRun<T, E>
    decreases |calls|
  {
    if calls == [] then MultiRun(s, [])
    else
      var first := ArmCorrected(s, calls[0]);
      var rest := VisitAllCorrected(first.after, calls[1..]);
      MultiRun(rest.after, [first.result] + rest.results)
  }

  /** Counting with the corrected probe: the counter grows by exactly the number of candidates. */
  lemma {:induction false} CorrectedCount<T, E>(s: Snapshot, calls: seq<MultiCall<T, E>>)
    requires s.mode == Count
    ensures VisitAllCorrected(s, calls).after == s.(counter := s.counter + Candidates(calls))
    decreases |calls|
  {
    if calls != [] {
      CorrectedCount(ArmCorrected(s, calls[0]).after, calls[1..]);
    }
  }

  /**
   * Forcing ordinal j with the corrected probe: visit i fires exactly when j
   * falls among its own ordinals, those after the `Candidates(calls[..i])`
   * ordinals of the visits before it, and it then returns the candidate at that
   * position; every other visit passes its result through. The countdown drops
   * by the total number of candidates.
   */
  lemma {:induction false} CorrectedTrigger<T, E>(s: Snapshot, calls: seq<MultiCall<T, E>>)
    requires s.mode == Trigger
    ensures var run := VisitAllCorrected(s, calls);
            && run.after.mode == Trigger
            && run.after.trigger == s.trigger - Candidates(calls)
            && |run.results| == |calls|
            && forall i :: 0 <= i < |calls| ==>
                 var before := Candidates(calls[..i]);
                 run.results[i] == if before < s.trigger <= before + |calls[i].errs|
                                   then Err(calls[i].errs[s.trigger - before - 1]) else calls[i].res
    decreases |calls|
  {
    if calls != [] {
      var first := ArmCorrected(s, calls[0]);
      var rest := VisitAllCorrected(first.after, calls[1..]);
      CorrectedTriggerStep(s, calls[0]);
      CorrectedTrigger(first.after, calls[1..]);
      var run := VisitAllCorrected(s, calls);
      assert run == MultiRun(rest.after, [first.result] + rest.results);
      forall i | 0 <= i < |calls|
        ensures var before := Candidates(calls[..i]);
                run.results[i] == if before < s.trigger <= before + |calls[i].errs|
                                  then Err(calls[i].errs[s.trigger - before - 1]) else calls[i].res
      {
        if i == 0 {
          assert calls[..0] == [];
          assert run.results[0] == first.result;
        } else {
          CandidatesBefore(calls, i);
          var later := Candidates(calls[1..][..i - 1]);
          assert calls[1..][i - 1] == calls[i];
          assert rest.results[i - 1]
              == if later < first.after.trigger <= later + |calls[i].errs|
                 then Err(calls[i].errs[first.after.trigger - later - 1]) else calls[i].res;
          assert run.results[i] == rest.results[i - 1];
        }
      }
    }
  }

  /** The ordinals counted before visit i are the first visit's and those before visit i - 1 of the rest. */
  lemma CandidatesBefore<T, E>(calls: seq<MultiCall<T, E>>, i: int)
    requires 1 <= i <= |calls|
    ensures Candidates(calls[..i]) == |calls[0].errs| + Candidates(calls[1..][..i - 1])
  {
    assert calls[..i][1..] == calls[1..][..i - 1];
  }

  /** Visit i owns the ordinals after those of the visits before it. */
  predicate Owns<T, E>(calls: seq<MultiCall<T, E>>, i: int, j: int)
    requires 0 <= i < |calls|
  {
    Candidates(calls[..i]) < j <= Candidates(calls[..i]) + |calls[i].errs|
  }

  /**
   * With the corrected probe every ordinal from 1 to the count belongs to
   * exactly one visit: forcing it makes exactly that visit fire, once.
   */
  lemma {:induction false} CorrectedOrdinalsFireOnce<T, E>(calls: seq<MultiCall<T, E>>, j: int) returns (i: nat)
    requires 1 <= j <= Candidates(calls)
    ensures i < |calls| && Owns(calls, i, j)
    ensures forall i' :: 0 <= i' < |calls| && i' != i ==> !Owns(calls, i', j)
    decreases |calls|
  {
    PrefixCandidatesGrow(calls);
    if j <= |calls[0].errs| {
      i := 0;
      assert calls[..0] == [];
    } else {
      var i0 := CorrectedOrdinalsFireOnce(calls[1..], j - |calls[0].errs|);
      i := i0 + 1;
      CandidatesBefore(calls, i);
      assert calls[1..][i0] == calls[i];
    }
    forall i' | 0 <= i' < |calls| && i' != i
      ensures !Owns(calls, i', j)
    {
      if i' < i {
        assert Candidates(calls[..i' + 1]) <= Candidates(calls[..i]);
      } else {
        assert Candidates(calls[..i + 1]) <= Candidates(calls[..i']);
      }
    }
  }

  /**
   * Forcing an ordinal j between 1 and the count on a run of corrected visits
   * makes exactly one visit fire: visit i returns the candidate at position
   * j - Candidates(calls[..i]) of its own list, and every other visit returns
   * the result it wrapped.
   */
  lemma CorrectedForcingFiresOnce<T, E>(s: Snapshot, calls: seq<MultiCall<T, E>>) returns (i: nat)
    requires s.mode == Trigger && 1 <= s.trigger <= Candidates(calls)
    ensures var run := VisitAllCorrected(s, calls);
            && i < |calls| && |run.results| == |calls|
            && 0 <= s.trigger - Candidates(calls[..i]) - 1 < |calls[i].errs|
            && run.results[i] == Err(calls[i].errs[s.trigger - Candidates(calls[..i]) - 1])
            && forall i' :: 0 <= i' < |calls| && i' != i ==> run.results[i'] == calls[i'].res
  {
    i := CorrectedOrdinalsFireOnce(calls, s.trigger);
    CorrectedTrigger(s, calls);
    var run := VisitAllCorrected(s, calls);
    forall i' | 0 <= i' < |calls| && i' != i
      ensures run.results[i'] == calls[i'].res
    {
      assert !Owns(calls, i', s.trigger);
    }
  }

  /** The ordinals counted before visit i grow with i, by that visit's candidates at each step. */
  lemma PrefixCandidatesGrow<T, E>(calls: seq<MultiCall<T, E>>)
    ensures forall i :: 0 <= i < |calls| ==> Candidates(calls[..i + 1]) == Candidates(calls[..i]) + |calls[i].errs|
    ensures forall a, b :: 0 <= a <= b <= |calls| ==> Candidates(calls[..a]) <= Candidates(calls[..b])
  {
    forall i | 0 <= i < |calls|
      ensures Candidates(calls[..i + 1]) == Candidates(calls[..i]) + |calls[i].errs|
    {
      assert calls[..i + 1] == calls[..i] + [calls[i]];
      CandidatesAppend(calls[..i], [calls[i]]);
      assert [calls[i]][1..] == [];
    }
    forall a, b | 0 <= a <= b <= |calls|
      ensures Candidates(calls[..a]) <= Candidates(calls[..b])
    {
      assert calls[..b] == calls[..a] + calls[a..b];
      CandidatesAppend(calls[..a], calls[a..b]);
    }
  }

  // ---------------------------------------------------------------------------
  // The example program of the legacy probe

  /**
   * `examples/failpoint.rs`: one probe per call counts 1; after `start_trigger(2)`
   * the first call passes and the second fails with the probe's error, which is
   * also where `triggeredAt` then points.
   */
  method CountdownAcrossCalls() returns (count: int, first: Result<(), string>, second: Result<(), string>,
                                         at: Option<Location>)
    ensures count == 1 && first == Ok(()) && second == Err("Error 1")
    ensures at == Some(Location(Some("failpoint"), "examples/failpoint.rs", 23, "", 2))
  {
    var g := new Inner();
    var site := Site(Some("failpoint"), "examples/failpoint.rs", 23, "");
    g.StartCounter();
    var res := Failpoint1(g, Ok(()), "Error 1", site);
    count := g.GetCount();
    g.StartTrigger(2);
    first := Failpoint1(g, Ok(()), "Error 1", site);
    second := Failpoint1(g, Ok(()), "Error 1", site);
    at := g.GetTriggeredAt();
  }
}
