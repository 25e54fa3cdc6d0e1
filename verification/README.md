# failpoint — a Dafny model of the fault-injection state machine and its exhaustion driver

The `failpoint` crate lets production code wrap an operation's already-computed
`Result` in a *probe* (`failpoint!`). One shared injection state decides what a
probe does:

- In **Count** mode a probe only adds to a counter.
- In **Trigger** mode a countdown set by `start_trigger(n)` picks the n-th probe
  visit, and that probe replaces an `Ok` with its candidate error.

The **exhaustion driver** (`test_codepath!`) uses this to test a code path. It runs
the path once in Count mode to learn how many probes it has. It then runs the path
once per ordinal 1..n in Trigger mode and checks that each forced failure makes the
path fail. It reports a `CodePathResult`.

This project models, in Dafny:

- `outcomes.dfy`: `Option` and `Result`.
- `failpoint_state.dfy` (module `FailpointState`):
  - the injection state as a class `Inner` with the source's fields and mutators;
  - a value snapshot `Snapshot` of that state;
  - the rendering of probe locations and report messages.
  The logger is a flag `hasLogger` plus a ghost sequence `messages` holding every
  message delivered to it.
- `failpoint_macros.rs` → `failpoint_macros.dfy` (module `FailpointMacros`):
  - the probe as a function `Visit` on snapshots and as a method `Failpoint` acting
    on an `Inner`;
  - `VisitAll`, any sequence of visits, which may be spread over several calls;
  - the compiled-out pass-through.
- `codepath_state.dfy` (module `CodepathState`): `CodePathResult` and `success()`.
- `codepath_macros.dfy` (module `CodepathMacros`): the driver.
  - A code path is a sequence of probe steps plus the value the path returns. Each
    step carries its wrapped result and whether the surrounding code returns or
    swallows an `Err`.
  - `RunCodePath` executes a path against an `Inner`.
  - `TestCodepath` is the driver loop. It returns the record and, as ghost counters,
    how many times the `before` and `after` blocks ran.
  - `Run`, `Exhaust` and `TriggerPasses` state the same computations as functions.
    The lemmas about the driver are proved about these functions.
- `legacy_failpoint.dfy` (module `LegacyFailpoint`): the older snapshot in
  `src/lib.rs`. It has its own state with `triggeredAt`, and one-, two- and
  three-candidate probe arms, modelled as written. It also holds the corrected
  multi-candidate probe described under Findings.
- `integration_scenarios.dfy`: the repository's integration tests and examples,
  replayed on fresh states with what they assert as postconditions.

Notes on the crate's behaviour:

- When the Count pass fails, the record is `expected_trigger_count = i64::MAX`
  and `trigger_count = -1`. The counts start at `i64::MAX` and 0
  (src/codepath_macros.rs:65-66), and the record stores `trigger_count - 1`
  (src/codepath_macros.rs:119-125).
- The compiled-out driver always reports 0 expected and 0 triggered
  (src/codepath_macros.rs:149-153), so its `success()` is true whatever the
  path returned.
- The injection state holds only mode, counter, logger, verbosity and trigger
  (src/failpoint_state.rs:42-51). It keeps no history of counted or triggered
  locations, and the verbosity is a plain integer.

`src/failpoint_macros.rs:92` and `:95` call `report_trigger` and
`report_unexpected_failure` with arguments that do not match their definitions
(`src/failpoint_state.rs:70`, `:80`). The model calls them with the probe's location
and with the debug rendering of the error reported. For a firing probe that is the
injected error; for a masked probe it is the error the probe let through. The
rendering is a parameter `render: E -> string`.

## Model

| member | source | states |
|---|---|---|
| FailpointState.Decimal | src/failpoint_state.rs:101-103 | a line number renders as a non-empty string of decimal digits; it is one digit exactly for numbers below 10 and has no leading zero |
| FailpointState.DecimalRoundTrip | src/failpoint_state.rs:101-103 | reading the rendered digits back gives the same line number |
| FailpointState.FormatFileRef | src/failpoint_state.rs:99-105 | the file reference is the file name, ":", then exactly the decimal rendering of the line number (digits only, no leading zero, reading back as the line), and then " in crate c" when a crate name c is known |
| FailpointState.FormatLoc | src/failpoint_state.rs:90-97 | the location ends with the file reference, preceded by `failpoint "d" at ` when there is a description d and by `failpoint at ` otherwise |
| FailpointState.TriggerMessage | src/failpoint_state.rs:70-78 | a trigger report is "Triggered ", then the probe's rendered location, and then " injecting Err(e)" for the rendered error e, with nothing else in between |
| FailpointState.UnexpectedMessage | src/failpoint_state.rs:80-88 | an unexpected-failure report is "Unexpected error in ", then the probe's rendered location, and then " got Err(e)" for the rendered error e, with nothing else in between |
| FailpointState.ReportKindsDiffer | src/failpoint_state.rs:70-88 | no trigger report equals any unexpected-failure report, so the two event kinds can always be told apart |
| FailpointState.LoggedDeliversIff | src/failpoint_state.rs:302-311 | a message is appended to the log exactly when verbosity >= level and a logger is set; otherwise the state is unchanged, and in no case does anything but the log change |
| FailpointState.Inner.constructor | src/failpoint_state.rs:53-66 | a fresh state is in Count mode with counter 0, no logger, verbosity 1, trigger i64::MAX and nothing logged |
| FailpointState.Inner.StartCounter | src/failpoint_state.rs:165-170 | sets Count mode and counter 0 and changes nothing else |
| FailpointState.Inner.StartTrigger | src/failpoint_state.rs:198-203 | sets Trigger mode and trigger n; counter, verbosity, logger and log unchanged |
| FailpointState.Inner.GetCount | src/failpoint_state.rs:237-241 | returns the counter and modifies nothing |
| FailpointState.Inner.SetVerbosity | src/failpoint_state.rs:263-267 | replaces the verbosity only |
| FailpointState.Inner.SetLogger | src/failpoint_state.rs:291-295 | installs or removes the logger only |
| FailpointState.Inner.LogIfVerbose | src/failpoint_state.rs:302-311 | the new state is the old one with the message delivered under the verbosity/logger gate |
| FailpointState.Inner.ReportTrigger | src/failpoint_state.rs:70-78 | delivers exactly the trigger message when verbosity >= 1 and a logger is set, else nothing |
| FailpointState.Inner.ReportUnexpectedFailure | src/failpoint_state.rs:80-88 | delivers exactly the unexpected-failure message when verbosity >= 1 and a logger is set, else nothing |
| FailpointState.StartCounterTwice | tests/integration_test.rs:32-36 | two `start_counter` calls in a row each leave `get_count() == 0` |
| FailpointState.DisabledGetCount | src/failpoint_state.rs:243-247 | with failpoints compiled out the count is always 0 |
| FailpointMacros.Failpoint | src/failpoint_macros.rs:77-103 | the in-place probe leaves exactly the state and result the `Visit` function gives |
| FailpointMacros.VisitInCountMode | src/failpoint_macros.rs:85-87 | in Count mode a visit adds exactly 1 to the counter, returns the wrapped result unchanged (Ok or Err) and changes nothing else, the trigger included |
| FailpointMacros.VisitInTriggerMode | src/failpoint_macros.rs:88-101 | in Trigger mode a visit takes exactly 1 off the trigger and leaves the counter alone. On reaching zero, an Ok becomes `Err(err)` and a trigger report is delivered, while an Err is kept unchanged and an unexpected-failure report is delivered, each under the verbosity and logger gate. Otherwise the result passes through and nothing is logged |
| FailpointMacros.CountModeVisits | src/failpoint_macros.rs:85-87 | after k Count-mode visits the counter has grown by exactly k, so it is k after `start_counter`; every result passes through |
| FailpointMacros.TriggerModeVisits | src/failpoint_macros.rs:88-101 | after `start_trigger(n)`, visits across any number of calls share one countdown. Only visit n can fire, so at most one does; every other visit returns its result unchanged. The log gains only that visit's report. The trigger drops by exactly the number of visits and the counter is untouched |
| FailpointMacros.DisabledFailpoint | src/failpoint_macros.rs:106-118 | the compiled-out probe returns the wrapped result unchanged and involves no state |
| CodepathState.SuccessComparesCountsOnly | src/codepath_state.rs:7-10 | `success()` holds iff `trigger_count == expected_trigger_count`, and changing `unexpected_result` (to Some or None) never changes it |
| CodepathMacros.RunCodePath | src/codepath_macros.rs:89 | executing the code path against the state gives exactly the state and result of `Run` |
| CodepathMacros.TestCodepath | src/codepath_macros.rs:61-129 | the driver loop produces exactly the record, final state and block-run counts of `Exhaust` |
| CodepathMacros.TestCodepathDisabled | src/codepath_macros.rs:141-154 | compiled out, the driver reports 0 expected and 0 triggered, keeps the path's result as `unexpected_result`, runs each block once, and so its record satisfies `success()` |
| CodepathMacros.CountPassIsPassThrough | src/failpoint_macros.rs:85-87 | in Count mode a path returns what the compiled-out path returns; every probe reached returns its wrapped result, and the counter grows by the number of probes reached |
| CodepathMacros.RunDependsOnModeAndTrigger | src/failpoint_macros.rs:85-101 | what a path and its probes return depends only on the mode and, in Trigger mode, on the countdown |
| CodepathMacros.CountPassFromAnyState | src/codepath_macros.rs:81-89 | the Count pass after `start_counter` behaves as from a fresh state, and ends with the counter equal to the number of probes reached |
| CodepathMacros.TriggerPassesClean | src/codepath_macros.rs:68-117 | the Trigger passes for ordinals k..n end without a deviation iff every one of them makes the path fail; the record is then n/n and each block has run n + 1 times |
| CodepathMacros.TriggerPassesStop | src/codepath_macros.rs:91-104 | Trigger passes that deviate stop at the first ordinal m whose forced pass returned Ok. The record keeps `trigger_count = m - 1` and that Ok; `before` has run m + 1 times and `after` m times |
| CodepathMacros.ForcedFromAnyState | src/codepath_macros.rs:85-89 | a Trigger pass for ordinal k returns what the path returns when k is forced from a fresh state, whatever the counter and log held |
| CodepathMacros.ExhaustionLaw | src/codepath_macros.rs:68-127 | a run ends with `unexpected_result = None` iff the Count pass succeeds and forcing every ordinal 1..count makes the path fail; for driver records, `success()` iff no deviation |
| CodepathMacros.ExhaustCountFails | src/codepath_macros.rs:64-97 | a failing Count pass ends the run with `i64::MAX`, `-1` and that Err, with `before` run once and `after` never |
| CodepathMacros.ExhaustRecord | src/codepath_macros.rs:64-127 | after a successful Count pass `expected_trigger_count` is the number of probes counted; a run without a deviation reports that number as `trigger_count` too and ran each block count + 1 times |
| CodepathMacros.ExhaustStopsAt | src/codepath_macros.rs:98-104 | a deviating run stops at the first ordinal m whose forced pass returned Ok, after every earlier ordinal made the path fail. It records `m - 1` and that Ok, with `before` run m + 1 times and `after` m times |
| CodepathMacros.TriggerStraight | src/failpoint_macros.rs:88-101 | on a path whose probes all wrap Ok and propagate, forcing ordinal j makes probes before j pass through and the path return probe j's error |
| CodepathMacros.ExhaustStraight | src/codepath_macros.rs:61-129 | a path of k always-succeeding, propagating probes is exhausted to `k/k/None` and `success()`, including the 0/0 case |
| IntegrationScenarios.CounterMode | tests/integration_test.rs:21-46 | count 0 after `start_counter`, 1 after one probe, which passes Ok through |
| IntegrationScenarios.TriggerMode | tests/integration_test.rs:48-68 | ordinal 1 forced: the probe returns `Err("ERROR")` |
| IntegrationScenarios.TriggerModeTwo | tests/integration_test.rs:70-96 | ordinal 2 forced on two chained probes: `Err("ANOTHER ERROR")` |
| IntegrationScenarios.CountdownAcrossCalls | src/failpoint_macros.rs:88-99 | after `start_trigger(2)` the first call passes and the second call's probe fires |
| IntegrationScenarios.LoggedTrigger | src/failpoint_macros.rs:90-93 | with a logger at default verbosity a fired probe delivers exactly one trigger report |
| IntegrationScenarios.MaskedProbe | src/failpoint_macros.rs:94-96 | a forced probe wrapping an Err keeps that Err and delivers exactly one unexpected-failure report |
| IntegrationScenarios.CodepathOneProbe | tests/integration_test.rs:98-118 | one probe: record 1/1/None, success |
| IntegrationScenarios.CodepathTwoProbes | tests/integration_test.rs:120-162 | two chained probes: record 2/2/None, success |
| IntegrationScenarios.CodepathBeforeAndAfter | tests/integration_test.rs:240-272 | record 1/1/None and success, with `before` and `after` each run twice |
| IntegrationScenarios.CodepathDoesNotFail | tests/integration_test.rs:274-294 | a swallowed probe error gives record 1/0/Some(Ok), not success |
| IntegrationScenarios.DisabledBuild | examples/conditional_comp.rs:20-43 | compiled out, the probe passes Ok through and the count is 0 |
| LegacyFailpoint.Inner.constructor | src/lib.rs:110-122 | a fresh legacy state is in Count mode with counter 0, trigger i64::MAX, no reporter and no `triggered_at` |
| LegacyFailpoint.Inner.Report | src/lib.rs:126-146 | records the location, `err_no` included, as `triggered_at`, and passes it to the reporter only if one is set |
| LegacyFailpoint.Inner.StartCounter | src/lib.rs:168-173 | resets only mode and counter; `triggered_at` and trigger are kept |
| LegacyFailpoint.Inner.StartTrigger | src/lib.rs:175-181 | sets Trigger mode and trigger n and clears `triggered_at` |
| LegacyFailpoint.Inner.GetCount | src/lib.rs:183-187 | returns the counter and modifies nothing |
| LegacyFailpoint.Inner.GetTriggeredAt | src/lib.rs:189-193 | returns `triggered_at` and modifies nothing |
| LegacyFailpoint.Failpoint1 | src/lib.rs:305-331 | the in-place one-candidate arm leaves exactly the state and result of `Arm1` |
| LegacyFailpoint.Failpoint2 | src/lib.rs:260-297 | the in-place two-candidate arm leaves exactly the state and result of `Arm2` |
| LegacyFailpoint.Failpoint3 | src/lib.rs:206-251 | the in-place three-candidate arm leaves exactly the state and result of `Arm3` |
| LegacyFailpoint.Arm1Rules | src/lib.rs:317-328 | Count adds 1. Trigger decrements and, on reaching zero, returns `Err(err)` without checking whether the wrapped result was Ok, and reports candidate number 2. Otherwise the state changes only in the trigger and the result passes through |
| LegacyFailpoint.Arm2Rules | src/lib.rs:272-292 | Count adds 2. Trigger compares before decrementing: 2 gives err1 and 1 gives err2, each reporting its candidate number; other values pass through. Every visit takes exactly one off |
| LegacyFailpoint.Arm3Rules | src/lib.rs:218-246 | Count adds only 2. Trigger compares before decrementing: 3 gives err1, 2 gives err2 and 1 gives err3; other values pass through. Every visit takes exactly one off |
| LegacyFailpoint.ReportedRecords | src/lib.rs:126-146 | `_report` sets `triggered_at` to the given location and changes nothing else but the reporter's record |
| LegacyFailpoint.LegacyOrdinalSkipped | src/lib.rs:272-292 | as written, a two-candidate then a one-candidate probe counts 3, yet forcing ordinal 3 fires neither |
| LegacyFailpoint.LegacyFirstOfThreeUnreachable | src/lib.rs:218-246 | as written, a lone three-candidate probe counts 2, and ordinals 1 and 2 give err3 and err2, never err1 |
| LegacyFailpoint.CorrectedTriggerStep | src/lib.rs:53-61 | one corrected visit in Trigger mode takes its number of candidates off the countdown and fires iff the countdown falls among them, returning the candidate at that position |
| LegacyFailpoint.FailpointCorrected | src/lib.rs:53-61 | the in-place corrected probe leaves exactly the state and result of `ArmCorrected` |
| LegacyFailpoint.CorrectedAgreesWithArm1 | src/lib.rs:317-328 | with one candidate the corrected probe agrees with the one-candidate arm on result, mode, counter and trigger |
| LegacyFailpoint.CorrectedCount | src/lib.rs:29-36 | the corrected probe counts exactly one ordinal per candidate |
| LegacyFailpoint.CorrectedTrigger | src/lib.rs:53-61 | forcing ordinal j makes visit i fire exactly when j is one of its own ordinals, returning the candidate at that position; all other visits pass through |
| LegacyFailpoint.CorrectedOrdinalsFireOnce | src/lib.rs:53-61 | every ordinal from 1 to the count belongs to exactly one visit |
| LegacyFailpoint.CorrectedForcingFiresOnce | src/lib.rs:53-61 | with the corrected probe, forcing any ordinal from 1 to the count makes exactly one visit fire. That visit returns the candidate at the ordinal's position within its own list, and every other visit returns its wrapped result |
| LegacyFailpoint.CountdownAcrossCalls | examples/failpoint.rs:32-61 | one probe counts 1; after `start_trigger(2)` the first call passes, the second fails with "Error 1", and `triggered_at` points at that probe |

## Left out

- The `Mutex`, `LazyLock`, the `STATE` static, `get_state` and `lock_state`. These only serialise access to a process-wide singleton. The model passes the state object explicitly and assumes one thread.
- The logger closure and the `Reporter` callback. Each is foreign code. The model keeps a presence flag plus a ghost record of what it was handed.
- `{:?}` formatting of arbitrary error values. It is the parameter `render`.
- `CARGO_CRATE_NAME`, `file!()` and `line!()`. They are compile-time capture, and the model passes the location fields as parameters.
- `is_enabled` and the `cfg` feature switch. The compiled-out build is modelled only by its separate behaviours: `DisabledFailpoint`, `DisabledGetCount` and `TestCodepathDisabled`. The compiled-out `start_counter`, `start_trigger`, `set_verbosity` and `set_logger` are no-ops and have nothing to model.
- The `@log` arm of `test_codepath!` and the driver's progress messages. These are log output only. `TestCodepath`'s log therefore records only the probes' reports.
- The two shorthand arms of `test_codepath!` (src/codepath_macros.rs:131-137): the first supplies an empty `before` block and keeps the caller's `after`, the second supplies empty `before` and `after` blocks. Blocks affect the model only through their run counts, so these arms are `TestCodepath` itself.
- Integer widths: i64 counters and trigger, i32 verbosity, u32 line numbers and usize `err_no`. They are unbounded `int`/`nat`, so wrap-around is not modelled; no path here relies on it.
- The user's code under test is modelled only as a straight sequence of probes with propagate-or-swallow handling. Arbitrary control flow between probes is not modelled.

## Findings

| source | as written | input that shows it | evidently intended | confidence | as-written member | corrected member |
|---|---|---|---|---|---|---|
| src/lib.rs:272-292 | the two-candidate arm adds 2 to the counter but takes only one off the countdown per visit | a two-candidate probe followed by a one-candidate probe, both wrapping Ok: the count is 3, but `start_trigger(3)` makes neither fire | every counted ordinal forces exactly one candidate, with one ordinal consumed per candidate | medium, not executed | LegacyFailpoint.LegacyOrdinalSkipped | LegacyFailpoint.CorrectedForcingFiresOnce |
| src/lib.rs:218-246 | the three-candidate arm adds only 2 to the counter | a lone three-candidate probe: the count is 2 and ordinals 1 and 2 force err3 and err2, so err1 is never forced | the count includes all three candidates and each is forced by one ordinal | medium, not executed | LegacyFailpoint.LegacyFirstOfThreeUnreachable | LegacyFailpoint.CorrectedTrigger |
