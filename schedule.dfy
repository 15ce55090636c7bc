/** The schedule validator of a Chronos job: `_check_schedule_repeat_helper`
    and `check_schedule` (paasta_tools/chronos_tools.py:183-222).

    A schedule is `<repeat>/<start time>/<interval>`. The repeat part is an
    ISO 8601 repeating-interval designator (section 4.5 of ISO 8601), the
    start time an ISO 8601 date-time (empty means "now" to Chronos) and the
    interval an ISO 8601 duration. Date-time and duration parsing belong to
    the `isodate` library and are given as the oracles of `IsoDate`. */
module Schedule {
  import opened Strings
  import opened PyValues

  /** The `isodate` entry points the validator calls: whether
      `parse_duration` / `parse_datetime` accept a text, and the text of the
      `ISO8601Error` that `parse_datetime` raises when it does not. */
  datatype IsoDate = IsoDate(
    isDuration: string -> bool,
    isDatetime: string -> bool,
    datetimeError: string -> string)

  /** The outcome of one field check: `(passed, message)`. */
  datatype Checked = Checked(passed: bool, msg: string)

  predicate IsDigit(c: char)
  {
    '0' <= c <= '9'
  }

  predicate AllDigits(s: string)
  {
    forall i :: 0 <= i < |s| ==> IsDigit(s[i])
  }

  /** The language of `^R\d*$` under Python 2's `re.match` on a byte
      string: `R`, then ASCII digits, then the end of the text or a single
      newline that ends the text (Python's `$` also matches there). */
  ghost predicate IsRepeatDesignator(s: string)
  {
    exists d :: AllDigits(d) && (s == "R" + d || s == "R" + d + "\n")
  }

  /** The end of the run of digits that starts at `i` (greedy `\d*`). */
  function DigitRunEnd(s: string, i: nat): (j: nat)
    requires i <= |s|
    ensures i <= j <= |s|
    ensures AllDigits(s[i..j])
    ensures j < |s| ==> !IsDigit(s[j])
    decreases |s| - i
  {
    if i < |s| && IsDigit(s[i]) then
      var j := DigitRunEnd(s, i + 1);
      assert s[i..j] == [s[i]] + s[i + 1..j];
      j
    else i
  }

  /** `_check_schedule_repeat_helper`: match `R`, take the digits greedily,
      then require the `$` anchor. Giving digits back cannot help `$`, so
      the greedy run decides the match; the contract says that this is
      exactly the repeat-designator language. */
  function RepeatMatches(s: string): (ok: bool)
    ensures ok <==> IsRepeatDesignator(s)
  {
    var ok := 0 < |s| && s[0] == 'R' &&
      var j := DigitRunEnd(s, 1);
      j == |s| || (j == |s| - 1 && s[j] == '\n');
    assert ok ==> IsRepeatDesignator(s) by {
      if ok {
        var j := DigitRunEnd(s, 1);
        var d := s[1..j];
        assert s == "R" + d || s == "R" + d + "\n";
      }
    }
    assert IsRepeatDesignator(s) ==> ok by {
      if IsRepeatDesignator(s) {
        var d :| AllDigits(d) && (s == "R" + d || s == "R" + d + "\n");
        RunEndsAfterDigits(s, d);
      }
    }
    ok
  }

  /** Inside `R<d>` or `R<d>\n` the digit run from index 1 ends right after d. */
  lemma RunEndsAfterDigits(s: string, d: string)
    requires AllDigits(d)
    requires s == "R" + d || s == "R" + d + "\n"
    ensures DigitRunEnd(s, 1) == 1 + |d|
  {
    var j := DigitRunEnd(s, 1);
    assert forall k :: 1 <= k < 1 + |d| ==> s[k] == d[k - 1];
    assert 1 + |d| < |s| ==> s[1 + |d|] == '\n';
    assert forall k :: 1 <= k < j ==> s[k] == s[1..j][k - 1];
  }

  /** The repeats the validator is documented to accept and to reject. */
  lemma RepeatExamples()
    ensures RepeatMatches("R") && RepeatMatches("R0") && RepeatMatches("R5")
    ensures RepeatMatches("R12") && RepeatMatches("R5\n")
    ensures !RepeatMatches("r5") && !RepeatMatches("Q5") && !RepeatMatches("R5x")
    ensures !RepeatMatches("") && !RepeatMatches(" R5") && !RepeatMatches("R5\n\n")
  {
    assert DigitRunEnd("R5x", 1) == 2;
    assert DigitRunEnd("R5\n\n", 1) == 2;
    assert DigitRunEnd("R5\n", 1) == 2;
    assert DigitRunEnd("R12", 1) == 3;
  }

  function MissingScheduleMessage(): string
  {
    "You must specify a \"schedule\" in your configuration"
  }

  function InvalidScheduleMessage(schedule: string): string
  {
    "The specified schedule \"" + schedule + "\" is invalid"
  }

  function NoStartTimeMessage(schedule: string): string
  {
    "The specified schedule \"" + schedule + "\" does not contain a start time"
  }

  function StartTimeMessage(start: string, schedule: string, error: string): string
  {
    "The specified start time \"" + start + "\" in schedule \"" + schedule
      + "\" does not conform to the ISO 8601 format:\n" + error
  }

  function IntervalMessage(interval: string, schedule: string): string
  {
    "The specified interval \"" + interval + "\" in schedule \"" + schedule
      + "\" does not conform to the ISO 8601 format."
  }

  function RepeatMessage(repeat: string, schedule: string): string
  {
    "The specified repeat \"" + repeat + "\" in schedule \"" + schedule
      + "\" does not conform to the ISO 8601 format."
  }

  /** The diagnostic for the start time: none for a parsable date-time. A
      parsed date-time always has a `tzinfo` attribute, so the time-zone
      test adds nothing. */
  function StartTimeMessages(schedule: string, start: string, iso: IsoDate): seq<string>
  {
    if start == "" then [NoStartTimeMessage(schedule)]
    else if !iso.isDatetime(start) then [StartTimeMessage(start, schedule, iso.datetimeError(start))]
    else []
  }

  /** The diagnostic for the interval: none for an ISO 8601 duration. */
  function IntervalMessages(schedule: string, interval: string, iso: IsoDate): seq<string>
  {
    if iso.isDuration(interval) then [] else [IntervalMessage(interval, schedule)]
  }

  /** The diagnostic for the repeat: none for a repeat designator. */
  function RepeatMessages(schedule: string, repeat: string): seq<string>
  {
    if RepeatMatches(repeat) then [] else [RepeatMessage(repeat, schedule)]
  }

  /** The diagnostics for the three parts of `schedule`, each part checked
      on its own, in the order start time, interval, repeat. */
  function PartMessages(schedule: string, repeat: string, start: string, interval: string,
                        iso: IsoDate): seq<string>
  {
    StartTimeMessages(schedule, start, iso) + IntervalMessages(schedule, interval, iso)
      + RepeatMessages(schedule, repeat)
  }

  /** The diagnostics `check_schedule` produces for a schedule value, or the
      exception it raises (`str.split` needs a `str`). */
  function ScheduleMessages(schedule: Value, iso: IsoDate): (r: Result<seq<string>>)
    ensures r.Raise? <==> !(schedule.Null? || schedule.Str?)
    ensures r.Ok? ==> |r.value| <= 3
  {
    match schedule
    case Null => Ok([MissingScheduleMessage()])
    case Str(s) =>
      var parts := Split(s, '/');
      if |parts| != 3 then Ok([InvalidScheduleMessage(s)])
      else Ok(PartMessages(s, parts[0], parts[1], parts[2], iso))
    case _ => Raise(TypeError(schedule))
  }

  /** `check_schedule`'s return value, as a function of its input. */
  function ScheduleCheck(schedule: Value, iso: IsoDate): (r: Result<Checked>)
    ensures r.Raise? <==> !(schedule.Null? || schedule.Str?)
  {
    match ScheduleMessages(schedule, iso)
    case Raise(e) => Raise(e)
    case Ok(msgs) => Ok(Checked(|msgs| == 0, Join("\n", msgs)))
  }

  /** `check_schedule`: collect one message per failing part. */
  method CheckSchedule(schedule: Value, iso: IsoDate) returns (r: Result<Checked>)
    ensures r == ScheduleCheck(schedule, iso)
    ensures r.Raise? <==> !(schedule.Null? || schedule.Str?)
    ensures r.Ok? ==> (r.value.passed <==> r.value.msg == "")
  {
    var msgs: seq<string> := [];
    if schedule.Null? {
      msgs := msgs + [MissingScheduleMessage()];
    } else if schedule.Str? {
      var s := schedule.s;
      var parts := Split(s, '/');
      if |parts| != 3 {
        return Ok(Checked(false, InvalidScheduleMessage(s)));
      }
      var repeat, start, interval := parts[0], parts[1], parts[2];
      if start == "" {
        msgs := msgs + [NoStartTimeMessage(s)];
      } else if !iso.isDatetime(start) {
        msgs := msgs + [StartTimeMessage(start, s, iso.datetimeError(start))];
      }
      assert msgs == StartTimeMessages(s, start, iso);
      if !iso.isDuration(interval) {
        msgs := msgs + [IntervalMessage(interval, s)];
      }
      assert msgs == StartTimeMessages(s, start, iso) + IntervalMessages(s, interval, iso);
      if !RepeatMatches(repeat) {
        msgs := msgs + [RepeatMessage(repeat, s)];
      }
      assert msgs == PartMessages(s, repeat, start, interval, iso);
    } else {
      return Raise(TypeError(schedule));
    }
    r := Ok(Checked(|msgs| == 0, Join("\n", msgs)));
    ScheduleCheckPassesIffSilent(schedule, iso);
  }

  /** A schedule check passes exactly when its message is empty. */
  lemma ScheduleCheckPassesIffSilent(schedule: Value, iso: IsoDate)
    ensures ScheduleCheck(schedule, iso).Ok? ==>
      (ScheduleCheck(schedule, iso).value.passed <==> ScheduleCheck(schedule, iso).value.msg == "")
  {
    if ScheduleMessages(schedule, iso).Ok? {
      JoinEmpty(ScheduleMessages(schedule, iso).value);
    }
  }

  /** Joined messages are empty exactly when there are none; no message
      the validator produces is empty. */
  lemma JoinEmpty(msgs: seq<string>)
    requires forall i :: 0 <= i < |msgs| ==> msgs[i] != ""
    ensures Join("\n", msgs) == "" <==> msgs == []
  {
    if |msgs| > 1 {
      assert |Join("\n", msgs)| >= |msgs[0]|;
    }
  }

  /** A missing schedule, or one that does not split into exactly three
      `/`-parts (one with other than two slashes), fails with exactly one
      message and no per-part check. */
  lemma {:induction false} MalformedScheduleSingleMessage(schedule: Value, iso: IsoDate)
    requires schedule.Null? || (schedule.Str? && Occurrences(schedule.s, '/') != 2)
    ensures ScheduleMessages(schedule, iso).Ok?
    ensures |ScheduleMessages(schedule, iso).value| == 1
    ensures ScheduleCheck(schedule, iso) == Ok(Checked(false, ScheduleMessages(schedule, iso).value[0]))
    ensures schedule.Null? ==> ScheduleCheck(schedule, iso) == Ok(Checked(false, MissingScheduleMessage()))
    ensures schedule.Str? ==> ScheduleCheck(schedule, iso) == Ok(Checked(false, InvalidScheduleMessage(schedule.s)))
  {
    if schedule.Str? {
      SplitCount(schedule.s, '/');
    }
  }

  /** A three-part schedule gets one message per failing part and passes
      exactly when no part fails. */
  lemma ThreePartSchedule(s: string, iso: IsoDate)
    requires Occurrences(s, '/') == 2
    ensures |Split(s, '/')| == 3
    ensures var p := Split(s, '/');
            var startFails := p[1] == "" || !iso.isDatetime(p[1]);
            var intervalFails := !iso.isDuration(p[2]);
            var repeatFails := !RepeatMatches(p[0]);
            && ScheduleMessages(Str(s), iso).Ok?
            && |ScheduleMessages(Str(s), iso).value|
               == (if startFails then 1 else 0) + (if intervalFails then 1 else 0) + (if repeatFails then 1 else 0)
            && (ScheduleCheck(Str(s), iso).value.passed <==> !startFails && !intervalFails && !repeatFails)
            && (p[1] == "" ==> NoStartTimeMessage(s) in ScheduleMessages(Str(s), iso).value)
            && (p[1] != "" && !iso.isDatetime(p[1]) ==>
                  StartTimeMessage(p[1], s, iso.datetimeError(p[1])) in ScheduleMessages(Str(s), iso).value)
            && (intervalFails ==> IntervalMessage(p[2], s) in ScheduleMessages(Str(s), iso).value)
            && (repeatFails ==> RepeatMessage(p[0], s) in ScheduleMessages(Str(s), iso).value)
  {
    SplitCount(s, '/');
  }

  /** Every schedule `R<digits>/<start>/<interval>` whose start time parses
      as a date-time and whose interval parses as a duration passes with no
      diagnostic. */
  lemma {:induction false} WellFormedSchedulePasses(digits: string, start: string, interval: string, iso: IsoDate)
    requires AllDigits(digits)
    requires '/' !in start && '/' !in interval
    requires start != "" && iso.isDatetime(start) && iso.isDuration(interval)
    ensures ScheduleCheck(Str("R" + digits + "/" + start + "/" + interval), iso) == Ok(Checked(true, ""))
  {
    var repeat := "R" + digits;
    var s := repeat + "/" + start + "/" + interval;
    assert '/' !in repeat by {
      forall i | 0 <= i < |repeat| ensures repeat[i] != '/' {
        if i > 0 { assert repeat[i] == digits[i - 1]; }
      }
    }
    assert s == repeat + ['/'] + (start + ['/'] + interval);
    SplitAtFirstSeparator(repeat, '/', start + ['/'] + interval);
    SplitAtFirstSeparator(start, '/', interval);
    SplitWithoutSeparator(interval, '/');
    assert Split(s, '/') == [repeat, start, interval];
    assert RepeatMatches(repeat);
  }

  /** An empty start time always fails the check, although Chronos itself
      reads it as "now". */
  lemma EmptyStartTimeFails(repeat: string, interval: string, iso: IsoDate)
    requires '/' !in repeat && '/' !in interval
    ensures var s := repeat + "//" + interval;
            NoStartTimeMessage(s) in ScheduleMessages(Str(s), iso).value
            && !ScheduleCheck(Str(s), iso).value.passed
  {
    var s := repeat + "//" + interval;
    assert s == repeat + ['/'] + ("" + ['/'] + interval);
    SplitAtFirstSeparator(repeat, '/', "" + ['/'] + interval);
    SplitAtFirstSeparator("", '/', interval);
    SplitWithoutSeparator(interval, '/');
    assert Split(s, '/') == [repeat, "", interval];
  }
}
