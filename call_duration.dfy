/** `formatCallDuration`: the elapsed time of a video call as "mm:ss". The
    call's start and the current time are integer milliseconds; the start is
    absent before a call begins. */
module CallDuration {
  import opened Common

  /** The two-character zero padding both fields get. */
  function Pad2(s: string): (r: string)
    ensures |r| == if |s| >= 2 then |s| else 2
  {
    PadStart(s, 2, '0')
  }

  /** `formatCallDuration()` with `callStartTime` and `currentTime`.
      `Math.floor` of a quotient by a positive divisor is Dafny's `/`;
      JavaScript's `%` truncates, which `JsRemainder` models. */
  function FormatCallDuration(callStart: Option<int>, now: int): (r: string)
    ensures callStart.None? ==> r == "00:00"
  {
    if callStart.None? then "00:00"
    else Clock((now - callStart.value) / 1000)
  }

  /** The "mm:ss" text of a whole number of seconds: `Math.floor` of the
      minutes and JavaScript's truncating `%` for the seconds. */
  function Clock(duration: int): (r: string)
    ensures |r| >= 5
    ensures duration >= 0 ==> r[|r| - 3] == ':' && |r| - 3 >= 2
  {
    var minutes := duration / 60;
    var seconds := JsRemainder(duration, 60);
    var text := Pad2(IntToString(minutes)) + ":" + Pad2(IntToString(seconds));
    if duration >= 0 then
      assert seconds == duration % 60;
      FieldReadsBack(duration % 60);
      text
    else text
  }

  /** A leading '0' does not change the value of a decimal text. */
  lemma {:induction false} LeadingZero(s: string)
    requires AllDigits(s)
    ensures AllDigits(['0'] + s) && DecimalValue(['0'] + s) == DecimalValue(s)
    decreases |s|
  {
    if s != [] {
      var init := s[..|s| - 1];
      assert (['0'] + s)[..|['0'] + s| - 1] == ['0'] + init;
      LeadingZero(init);
    } else {
      assert DecimalValue(['0']) == DecimalValue([]) * 10 + 0;
    }
  }

  /** Leading zeros do not change the value of a decimal text. */
  lemma {:induction false} ZerosValue(k: nat, s: string)
    requires AllDigits(s)
    ensures AllDigits(Fill('0', k) + s) && DecimalValue(Fill('0', k) + s) == DecimalValue(s)
    decreases k
  {
    if k > 0 {
      assert Fill('0', k) + s == Fill('0', k - 1) + (['0'] + s);
      LeadingZero(s);
      ZerosValue(k - 1, ['0'] + s);
    } else {
      assert Fill('0', k) + s == s;
    }
  }

  /** Zero padding keeps a decimal text's digits and value. */
  lemma ZeroPadValue(s: string, width: nat)
    requires AllDigits(s)
    ensures AllDigits(PadStart(s, width, '0'))
    ensures DecimalValue(PadStart(s, width, '0')) == DecimalValue(s)
  {
    if |s| < width {
      ZerosValue(width - |s|, s);
    }
  }

  /** A non-negative field padded to two characters: its digits read back
      as the number. */
  lemma {:induction false} FieldReadsBack(n: nat)
    ensures AllDigits(Pad2(IntToString(n))) && DecimalValue(Pad2(IntToString(n))) == n
    ensures n < 100 ==> |Pad2(IntToString(n))| == 2
  {
    ZeroPadValue(NatToString(n), 2);
    DecimalRoundTrip(n);
    if n < 100 {
      NatToStringShort(n);
    }
  }

  /** Where the fields sit in "mm:ss" once the seconds field has two
      characters. */
  lemma Split(mm: string, ss: string)
    requires |ss| == 2
    ensures var r := mm + ":" + ss;
      && |r| == |mm| + 3 && r[|r| - 3] == ':' && r[..|r| - 3] == mm && r[|r| - 2..] == ss
  {
    var r := mm + ":" + ss;
    assert r[..|r| - 3] == mm;
    assert r[|r| - 2..] == ss;
  }

  /** A number from 100 on has at least three digits. */
  lemma {:induction false} NatToStringLong(n: nat)
    requires n >= 100
    ensures |NatToString(n)| >= 3
  {
    assert NatToString(n) == NatToString(n / 10) + [DigitChar(n % 10)];
  }

  /** A call under way shows the clock of the whole seconds elapsed. */
  lemma UnderWay(callStart: Option<int>, now: int)
    requires callStart.Some?
    ensures FormatCallDuration(callStart, now) == Clock((now - callStart.value) / 1000)
  {
  }

  /** Reads an "mm:ss" text back as a number of seconds: the two digits
      after the last ':' must be below 60, and any number of digits (at
      least two) may precede it. */
  function ReadClock(r: string): Option<nat> {
    if |r| < 5 || r[|r| - 3] != ':' then None
    else
      var mm, ss := r[..|r| - 3], r[|r| - 2..];
      if !AllDigits(mm) || !AllDigits(ss) || DecimalValue(ss) >= 60 then None
      else Some(DecimalValue(mm) * 60 + DecimalValue(ss))
  }

  /** Reading two digit fields joined by ':' whose values are `minutes` and
      `seconds`. */
  lemma ReadFields(mm: string, ss: string, minutes: nat, seconds: nat)
    requires |mm| >= 2 && |ss| == 2 && AllDigits(mm) && AllDigits(ss)
    requires DecimalValue(mm) == minutes && DecimalValue(ss) == seconds < 60
    ensures ReadClock(mm + ":" + ss) == Some(minutes * 60 + seconds)
  {
    Split(mm, ss);
  }

  /** The text of non-negative minutes and seconds below 60 reads back as
      their total. */
  lemma {:induction false} FieldsRead(minutes: nat, seconds: nat)
    requires seconds < 60
    ensures ReadClock(Pad2(IntToString(minutes)) + ":" + Pad2(IntToString(seconds))) == Some(minutes * 60 + seconds)
  {
    FieldReadsBack(minutes);
    FieldReadsBack(seconds);
    ReadFields(Pad2(IntToString(minutes)), Pad2(IntToString(seconds)), minutes, seconds);
  }

  /** That text is five characters long exactly below 100 minutes. */
  lemma {:induction false} FieldsWidth(minutes: nat, seconds: nat)
    requires seconds < 60
    ensures |Pad2(IntToString(minutes)) + ":" + Pad2(IntToString(seconds))| == 5 <==> minutes < 100
  {
    FieldReadsBack(minutes);
    FieldReadsBack(seconds);
    if minutes >= 100 {
      NatToStringLong(minutes);
    }
  }

  /** A non-negative number of seconds reads back from its text, which is
      exactly five characters long below 100 minutes and longer from then
      on: the minutes are never cut. */
  lemma {:induction false} ClockRoundTrip(duration: nat)
    ensures ReadClock(Clock(duration)) == Some(duration)
    ensures |Clock(duration)| == 5 <==> duration < 6000
  {
    assert JsRemainder(duration, 60) == duration % 60;
    FieldsRead(duration / 60, duration % 60);
    FieldsWidth(duration / 60, duration % 60);
  }

  /** For a call under way, the text reads back as the whole seconds
      elapsed since the call started. */
  lemma {:induction false} DurationReadsBack(callStart: Option<int>, now: int)
    requires callStart.Some? && now >= callStart.value
    ensures ReadClock(FormatCallDuration(callStart, now)).Some?
    ensures var total := ReadClock(FormatCallDuration(callStart, now)).value;
      total * 1000 <= now - callStart.value < total * 1000 + 1000
  {
    UnderWay(callStart, now);
    ClockRoundTrip((now - callStart.value) / 1000);
  }

  /** Below 100 minutes the text is exactly five characters with ':' in the
      middle; from 100 minutes on the minutes field grows rather than being
      cut. */
  lemma {:induction false} FiveCharsBelowHundredMinutes(callStart: Option<int>, now: int)
    requires callStart.Some? && now >= callStart.value
    ensures var r := FormatCallDuration(callStart, now);
      (|r| == 5 && r[2] == ':') <==> (now - callStart.value) / 1000 < 6000
  {
    UnderWay(callStart, now);
    ClockRoundTrip((now - callStart.value) / 1000);
  }

  /** Before a call starts, and during the first second of one, the text is
      "00:00"; a start later than the current time gives a leading minus sign. */
  lemma {:induction false} ZeroAndNegative(callStart: Option<int>, now: int)
    requires callStart.Some?
    ensures 0 <= now - callStart.value < 1000 ==> FormatCallDuration(callStart, now) == "00:00"
    ensures now < callStart.value ==> FormatCallDuration(callStart, now)[0] == '-'
  {
    var duration := (now - callStart.value) / 1000;
    if now < callStart.value {
      var m := IntToString(duration / 60);
      assert |m| >= 2 by {
        assert m == "-" + NatToString(-(duration / 60));
      }
    }
  }
}
