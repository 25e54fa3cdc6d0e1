/**
 * The injection state of the current failpoint implementation: the record that
 * every probe consults and updates, its mutators, and the rendering of probe
 * locations into log messages.
 *
 * The process-wide mutex around the record is not modelled: the record is an
 * object of class `Inner` passed explicitly to whoever uses it. The logger
 * callback becomes the flag `hasLogger` together with the ghost sequence
 * `messages` of every message delivered to it.
 */
module FailpointState {
  import opened Outcomes

  /** `i64::MAX`, the trigger value of a fresh state. */
  const I64_MAX: int := 0x7FFF_FFFF_FFFF_FFFF

  datatype Mode = Count | Trigger

  /** Where a probe sits: optional crate name, file, line and optional description. */
  datatype Location = Location(crateName: Option<string>, fileName: string, lineNo: nat, desc: Option<string>)

  // ---------------------------------------------------------------------------
  // Rendering of locations

  predicate IsDigit(c: char) { '0' <= c <= '9' }

  predicate AllDigits(s: string) { forall i :: 0 <= i < |s| ==> IsDigit(s[i]) }

  /** The decimal digit for `d`. */
  function DigitChar(d: nat): (c: char)
    requires d < 10
    ensures IsDigit(c) && (c as int) - ('0' as int) == d
  {
    ('0' as int + d) as char
  }

  /** The decimal rendering of a line number, as `{}` prints an integer. */
  function Decimal(n: nat): (s: string)
    ensures |s| >= 1 && AllDigits(s)
    ensures |s| == 1 <==> n < 10
    ensures n > 0 ==> s[0] != '0'
    decreases n
  {
    if n < 10 then [DigitChar(n)] else Decimal(n / 10) + [DigitChar(n % 10)]
  }

  /** The number a string of decimal digits denotes. */
  function DecimalValue(s: string): nat
    requires AllDigits(s)
    decreases |s|
  {
    if s == [] then 0
    else DecimalValue(s[..|s| - 1]) * 10 + ((s[|s| - 1] as int) - ('0' as int))
  }

  /** Rendering a line number loses nothing: its digits read back as the same number. */
  lemma {:induction false} DecimalRoundTrip(n: nat)
    ensures DecimalValue(Decimal(n)) == n
    decreases n
  {
    if n >= 10 {
      var s := Decimal(n);
      assert s[..|s| - 1] == Decimal(n / 10);
      DecimalRoundTrip(n / 10);
    }
  }

  /** `format_file_ref`: "file:line", followed by " in crate c" when a crate name is known. */
  function FormatFileRef(loc: Location): (r: string)
    ensures |r| > |loc.fileName| && r[..|loc.fileName| + 1] == loc.fileName + ":"
    ensures loc.crateName.None? ==>
              var digits := r[|loc.fileName| + 1..];
              AllDigits(digits) && DecimalValue(digits) == loc.lineNo
    ensures loc.crateName.None? ==> r[|loc.fileName| + 1..] == Decimal(loc.lineNo)
    ensures loc.crateName.Some? ==>
              var tail := " in crate " + loc.crateName.value;
              && |r| >= |loc.fileName| + 1 + |tail|
              && r[|r| - |tail|..] == tail
              && r[|loc.fileName| + 1..|r| - |tail|] == Decimal(loc.lineNo)
  {
    var fileAndLine := loc.fileName + ":" + Decimal(loc.lineNo);
    assert fileAndLine[|loc.fileName| + 1..] == Decimal(loc.lineNo);
    DecimalRoundTrip(loc.lineNo);
    match loc.crateName
    case None => fileAndLine
    case Some(c) =>
      var r := fileAndLine + " in crate " + c;
      assert r[|loc.fileName| + 1..|r| - |" in crate " + c|] == Decimal(loc.lineNo);
      r
  }

  /**
   * `format_loc`: "failpoint \"d\" at " followed by the file reference when the
   * probe has a description, "failpoint at " followed by it otherwise.
   */
  function FormatLoc(loc: Location): (r: string)
    ensures var fileRef := FormatFileRef(loc);
            |r| > |fileRef| && r[|r| - |fileRef|..] == fileRef
    ensures loc.desc.None? ==> r[..|r| - |FormatFileRef(loc)|] == "failpoint at "
    ensures loc.desc.Some? ==>
              r[..|r| - |FormatFileRef(loc)|] == "failpoint \"" + loc.desc.value + "\" at "
  {
    match loc.desc
    case None => "failpoint at " + FormatFileRef(loc)
    case Some(d) => "failpoint \"" + d + "\" at " + FormatFileRef(loc)
  }

  /** The message of a fired probe; `errText` is the debug rendering of the injected error. */
  function TriggerMessage(loc: Location, errText: string): (m: string)
    ensures |m| > 10 && m[..10] == "Triggered "
    ensures |m| >= 10 + |FormatLoc(loc)| && m[10..10 + |FormatLoc(loc)|] == FormatLoc(loc)
    ensures var tail := " injecting Err(" + errText + ")";
            |m| >= |tail| && m[|m| - |tail|..] == tail
    ensures |m| == 10 + |FormatLoc(loc)| + |" injecting Err(" + errText + ")"|
  {
    var where := FormatLoc(loc);
    var tail := " injecting Err(" + errText + ")";
    var m := "Triggered " + where + tail;
    assert m[10..10 + |where|] == where;
    assert m[|m| - |tail|..] == tail;
    m
  }

  /** The message of a masked probe; `errText` is the debug rendering of the error it let through. */
  function UnexpectedMessage(loc: Location, errText: string): (m: string)
    ensures |m| > 20 && m[..20] == "Unexpected error in "
    ensures |m| >= 20 + |FormatLoc(loc)| && m[20..20 + |FormatLoc(loc)|] == FormatLoc(loc)
    ensures var tail := " got Err(" + errText + ")";
            |m| >= |tail| && m[|m| - |tail|..] == tail
    ensures |m| == 20 + |FormatLoc(loc)| + |" got Err(" + errText + ")"|
  {
    var where := FormatLoc(loc);
    var tail := " got Err(" + errText + ")";
    var m := "Unexpected error in " + where + tail;
    assert m[20..20 + |where|] == where;
    assert m[|m| - |tail|..] == tail;
    m
  }

  /** A "triggered" report can never be mistaken for an "unexpected failure" report. */
  lemma ReportKindsDiffer(loc1: Location, text1: string, loc2: Location, text2: string)
    ensures TriggerMessage(loc1, text1) != UnexpectedMessage(loc2, text2)
  {
    assert TriggerMessage(loc1, text1)[0] == 'T';
    assert UnexpectedMessage(loc2, text2)[0] == 'U';
  }

  // ---------------------------------------------------------------------------
  // The state as a value, and its class

  /** The fields of the injection state, with `log` the messages delivered so far. */
  datatype Snapshot = Snapshot(mode: Mode, counter: int, trigger: int,
                               verbosity: int, hasLogger: bool, log: seq<string>)

  /** The state `Inner::default` builds. */
  function DefaultSnapshot(): Snapshot
  {
    Snapshot(Count, 0, I64_MAX, 1, false, [])
  }

  /** The state after `msg` is offered to the logger at level `level`. */
  function Logged(s: Snapshot, level: int, msg: string): Snapshot
  {
    if s.verbosity >= level && s.hasLogger then s.(log := s.log + [msg]) else s
  }

  /**
   * A message is delivered exactly when the verbosity reaches its level and a
   * logger is installed; in no case does anything but the log change.
   */
  lemma LoggedDeliversIff(s: Snapshot, level: int, msg: string)
    ensures Logged(s, level, msg).log == s.log + [msg] <==> s.verbosity >= level && s.hasLogger
    ensures !(s.verbosity >= level && s.hasLogger) ==> Logged(s, level, msg) == s
    ensures Logged(s, level, msg).(log := s.log) == s
  {
    if !(s.verbosity >= level && s.hasLogger) {
      assert |s.log + [msg]| != |s.log|;
    }
  }

  /** The injection state (`Inner` of the source), updated in place by its users. */
  class Inner {
    var mode: Mode
    var counter: int
    var trigger: int
    var verbosity: int
    var hasLogger: bool
    /** Every message the logger has been called with, oldest first. */
    ghost var messages: seq<string>

    ghost function View(): Snapshot
      reads this
    {
      Snapshot(mode, counter, trigger, verbosity, hasLogger, messages)
    }

    /** `Inner::default`: Count mode, counter 0, no logger, verbosity 1, trigger `i64::MAX`. */
    constructor ()
      ensures View() == DefaultSnapshot()
      ensures mode == Count && counter == 0 && trigger == I64_MAX
      ensures verbosity == 1 && !hasLogger && messages == []
    {
      mode := Count;
      counter := 0;
      hasLogger := false;
      verbosity := 1;
      trigger := I64_MAX;
      messages := [];
    }

    /** `start_counter`: Count mode with the counter at zero; nothing else changes. */
    method StartCounter()
      modifies this
      ensures View() == old(View()).(mode := Count, counter := 0)
    {
      mode := Count;
      counter := 0;
    }

    /** `start_trigger(n)`: Trigger mode with the countdown at `n`; nothing else changes. */
    method StartTrigger(triggerAfter: int)
      modifies this
      ensures View() == old(View()).(mode := Trigger, trigger := triggerAfter)
    {
      mode := Trigger;
      trigger := triggerAfter;
    }

    /** `get_count`: reads the counter and changes nothing. */
    method GetCount() returns (c: int)
      ensures c == counter
    {
      c := counter;
    }

    /** `set_verbosity`: replaces the verbosity only. */
    method SetVerbosity(v: int)
      modifies this
      ensures View() == old(View()).(verbosity := v)
    {
      verbosity := v;
    }

    /** `set_logger`: installs (`present`) or removes the logger, and nothing else. */
    method SetLogger(present: bool)
      modifies this
      ensures View() == old(View()).(hasLogger := present)
    {
      hasLogger := present;
    }

    /** `log_if_verbose`: hands `msg` to the logger when the verbosity reaches `level`. */
    method LogIfVerbose(level: int, msg: string)
      modifies this
      ensures View() == Logged(old(View()), level, msg)
    {
      if verbosity >= level && hasLogger {
        messages := messages + [msg];
      }
    }

    /** `report_trigger`: at verbosity 1 or more, logs that the probe at `loc` fired. */
    method ReportTrigger(loc: Location, errText: string)
      modifies this
      ensures View() == Logged(old(View()), 1, TriggerMessage(loc, errText))
    {
      if verbosity >= 1 && hasLogger {
        messages := messages + [TriggerMessage(loc, errText)];
      }
    }

    /** `report_unexpected_failure`: at verbosity 1 or more, logs that the probe at `loc` was masked. */
    method ReportUnexpectedFailure(loc: Location, errText: string)
      modifies this
      ensures View() == Logged(old(View()), 1, UnexpectedMessage(loc, errText))
    {
      if verbosity >= 1 && hasLogger {
        messages := messages + [UnexpectedMessage(loc, errText)];
      }
    }
  }

  /** Two `start_counter` calls in a row leave the count at zero after each. */
  method StartCounterTwice(g: Inner) returns (first: int, second: int)
    modifies g
    ensures first == 0 && second == 0
    ensures g.View() == old(g.View()).(mode := Count, counter := 0)
  {
    g.StartCounter();
    first := g.GetCount();
    g.StartCounter();
    second := g.GetCount();
  }

  /** `get_count` of the build with failpoints compiled out: always zero. */
  function DisabledGetCount(): (c: int)
    ensures c == 0
  {
    0
  }
}
