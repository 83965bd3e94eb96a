/**
 * The formatters of the status page: relative ages ("2 hours ago"), elapsed spans
 * ("1 hour 5 minutes"), wall-clock stamps ("2024-05-01 09:03:07"), durations ("12ms") and
 * refresh-interval labels. `Date.now()` and `new Date(..)` are not modelled: callers pass
 * millisecond differences and calendar fields.
 */
module Utils {
  import opened Wrappers
  import opened Numeric
  import opened Strings

  const MsPerSecond: nat := 1000
  const MsPerMinute: nat := 60000
  const MsPerHour: nat := 3600000
  const MsPerDay: nat := 86400000
  const NsPerMs: nat := 1000000

  predicate EndsWith(s: string, suffix: string) { |suffix| <= |s| && s[|s| - |suffix|..] == suffix }

  /** `${n} unit` with the plural 's' exactly when n is not 1 (both formatters spell counts so). */
  function Quantity(n: int, unit: string): string
  {
    IntToString(n) + " " + unit + (if n == 1 then "" else "s")
  }

  lemma QuantitySplit(n: int, unit: string, rest: string)
    ensures Quantity(n, unit) + rest == IntToString(n) + (" " + unit + (if n == 1 then "" else "s") + rest)
  {
  }

  /** A quantity reads back as its count. */
  lemma QuantityNumber(n: int, unit: string, rest: string)
    ensures ParseInt(Quantity(n, unit) + rest) == Some(n)
  {
    var tail := " " + unit + (if n == 1 then "" else "s") + rest;
    assert tail[0] == ' ';
    ParseIntOfNumeral(n, tail);
    QuantitySplit(n, unit, rest);
  }

  /** A quantity ends in 's' exactly when its count is not 1 (for a unit not ending in 's'). */
  lemma QuantityPlural(n: int, unit: string)
    requires unit != [] && unit[|unit| - 1] != 's'
    ensures var q := Quantity(n, unit); |q| >= 1 && (q[|q| - 1] == 's' <==> n != 1)
  {
    var q := Quantity(n, unit);
    if n == 1 {
      assert q == IntToString(n) + " " + unit;
      assert q[|q| - 1] == unit[|unit| - 1];
    } else {
      assert q == (IntToString(n) + " " + unit) + "s";
    }
  }

  datatype TimeUnit = Second | Minute | Hour | Day {
    function Ms(): nat
    {
      match this
      case Second => MsPerSecond
      case Minute => MsPerMinute
      case Hour => MsPerHour
      case Day => MsPerDay
    }

    function Name(): string
    {
      match this
      case Second => "second"
      case Minute => "minute"
      case Hour => "hour"
      case Day => "day"
    }
  }

  /** What `timeAgo` reports before it is spelled out: "now", or a rounded count of one unit. */
  datatype Age = Now | Ago(count: int, unit: TimeUnit)

  /**
   * The age of a timestamp `diff` milliseconds in the past (negative for the future).
   * Under half a second is "now"; otherwise the largest unit whose threshold is strictly
   * exceeded (3 days, 1 hour, 1 minute) is chosen and `diff` is rounded to it.
   */
  function AgeOf(diff: int): (a: Age)
    ensures a == Now <==> diff < 500
    ensures a.Ago? ==> a.count == RoundDiv(diff, a.unit.Ms())
    ensures a.Ago? ==> (a.unit == Day <==> diff > 3 * MsPerDay)
    ensures a.Ago? ==> (a.unit == Hour <==> MsPerHour < diff <= 3 * MsPerDay)
    ensures a.Ago? ==> (a.unit == Minute <==> MsPerMinute < diff <= MsPerHour)
    ensures a.Ago? ==> (a.unit == Second <==> diff <= MsPerMinute)
    ensures a.Ago? && a.unit == Day ==> a.count >= 3
    ensures a.Ago? && a.unit == Hour ==> 1 <= a.count <= 72
    ensures a.Ago? && (a.unit == Minute || a.unit == Second) ==> 1 <= a.count <= 60
  {
    if diff < 500 then Now
    else if diff > 3 * MsPerDay then Ago(RoundDiv(diff, MsPerDay), Day)
    else if diff > MsPerHour then Ago(RoundDiv(diff, MsPerHour), Hour)
    else if diff > MsPerMinute then Ago(RoundDiv(diff, MsPerMinute), Minute)
    else Ago(RoundDiv(diff, MsPerSecond), Second)
  }

  /** `timeAgo`: "now", or e.g. "1 minute ago", "3 days ago". */
  function TimeAgo(diff: int): (s: string)
    ensures s == "now" <==> diff < 500
  {
    match AgeOf(diff)
    case Now => "now"
    case Ago(c, u) =>
      var s := Quantity(c, u.Name()) + " ago";
      assert s[0] != 'n' by { assert IsDigit(s[0]) by { assert s[0] == IntToString(c)[0]; } }
      s
  }

  /** From half a second on, the text is "<count> <unit(s)> ago" and reads back as the
      rounded count. */
  lemma TimeAgoReadsBack(diff: int)
    requires diff >= 500
    ensures EndsWith(TimeAgo(diff), " ago")
    ensures ParseInt(TimeAgo(diff)) == Some(AgeOf(diff).count)
  {
    var a := AgeOf(diff);
    QuantityNumber(a.count, a.unit.Name(), " ago");
    assert TimeAgo(diff) == Quantity(a.count, a.unit.Name()) + " ago";
  }

  /** The unit in "… ago" is plural exactly when the count is not 1. */
  lemma TimeAgoPlural(diff: int)
    requires diff >= 500
    ensures var s := TimeAgo(diff); |s| >= 5 && (s[|s| - 5] == 's' <==> AgeOf(diff).count != 1)
  {
    var a := AgeOf(diff);
    QuantityPlural(a.count, a.unit.Name());
    var q := Quantity(a.count, a.unit.Name());
    assert TimeAgo(diff) == q + " ago";
  }

  /** Under half a second, and any future time, is "now"; half a second rounds up to one. */
  lemma TimeAgoNearExamples()
    ensures TimeAgo(450) == "now" && TimeAgo(-5000) == "now"
    ensures TimeAgo(500) == "1 second ago"
  {
    assert AgeOf(500) == Ago(1, Second);
  }

  lemma SixtyString()
    ensures NatToString(60) == "60"
  {
    assert NatToString(6) == "6";
  }

  lemma SixtySeconds()
    ensures AgeOf(60000) == Ago(60, Second)
    ensures Quantity(60, "second") == "60 seconds"
  {
    assert RoundDiv(60000, 1000) == 60;
    SixtyString();
  }

  lemma SixtyMinutes()
    ensures AgeOf(3600000) == Ago(60, Minute)
    ensures Quantity(60, "minute") == "60 minutes"
  {
    assert RoundDiv(3600000, 60000) == 60;
    SixtyString();
  }

  /** The unit thresholds are strict: exactly one minute is still counted in seconds. */
  lemma TimeAgoMinuteThreshold()
    ensures TimeAgo(60000) == "60 seconds ago"
    ensures TimeAgo(60001) == "1 minute ago"
  {
    SixtySeconds();
    assert AgeOf(60001) == Ago(1, Minute);
  }

  /** Exactly one hour is still counted in minutes. */
  lemma TimeAgoHourThreshold()
    ensures TimeAgo(3600000) == "60 minutes ago"
  {
    SixtyMinutes();
  }

  /** Two hours are counted in hours. */
  lemma TimeAgoHoursExample()
    ensures TimeAgo(7200000) == "2 hours ago"
  {
    assert AgeOf(7200000) == Ago(2, Hour) by { assert RoundDiv(7200000, 3600000) == 2; }
    assert Quantity(2, "hour") == "2 hours";
  }

  /** The span `timeDifference` reports, before it is spelled out. */
  datatype Span = HoursSpan(hours: int, minutes: int) | MinutesSpan(minutes: int, seconds: int) | SecondsSpan(seconds: int)

  /**
   * The span of `ms` milliseconds in whole seconds (floored, as `Math.floor` does), split
   * into the largest nonzero unit and the remainder in the next smaller one; in the hours
   * case the seconds are dropped. A negative span stays a (negative) count of seconds.
   */
  function SpanOf(ms: int): (sp: Span)
    ensures var total := ms / 1000;
      && (sp.HoursSpan? <==> total >= 3600)
      && (sp.MinutesSpan? <==> 60 <= total < 3600)
      && (sp.HoursSpan? ==>
            && sp.hours >= 1 && 0 <= sp.minutes < 60
            && 3600 * sp.hours + 60 * sp.minutes <= total < 3600 * sp.hours + 60 * sp.minutes + 60)
      && (sp.MinutesSpan? ==> 1 <= sp.minutes < 60 && 0 <= sp.seconds < 60 && 60 * sp.minutes + sp.seconds == total)
      && (sp.SecondsSpan? ==> sp.seconds == total)
  {
    var seconds := ms / 1000;
    var minutes := seconds / 60;
    var hours := minutes / 60;
    if hours > 0 then HoursSpan(hours, minutes % 60)
    else if minutes > 0 then MinutesSpan(minutes, seconds % 60)
    else SecondsSpan(seconds)
  }

  /** `timeDifference(start, end)`: the span from `end` to `start`, e.g. "1 hour 5 minutes". */
  function TimeDifference(start: int, end: int): string
  {
    SpanText(SpanOf(start - end))
  }

  /** The count of the largest unit of a span. */
  function LeadingCount(sp: Span): int
  {
    match sp
    case HoursSpan(h, _) => h
    case MinutesSpan(m, _) => m
    case SecondsSpan(s) => s
  }

  /** `timeDifference` spelled from an already computed span. */
  function SpanText(sp: Span): string
  {
    match sp
    case HoursSpan(h, m) => if m > 0 then Quantity(h, "hour") + " " + Quantity(m, "minute") else Quantity(h, "hour")
    case MinutesSpan(m, s) => if s > 0 then Quantity(m, "minute") + " " + Quantity(s, "second") else Quantity(m, "minute")
    case SecondsSpan(s) => Quantity(s, "second")
  }

  /** The text of a span reads back as its largest unit's count. */
  lemma SpanTextLeads(sp: Span)
    ensures ParseInt(SpanText(sp)) == Some(LeadingCount(sp))
  {
    match sp {
      case HoursSpan(h, m) =>
        if m > 0 { PairLeads(h, "hour", m, "minute"); } else { SingleLeads(h, "hour"); }
      case MinutesSpan(m, s) =>
        if s > 0 { PairLeads(m, "minute", s, "second"); } else { SingleLeads(m, "minute"); }
      case SecondsSpan(s) =>
        SingleLeads(s, "second");
    }
  }

  lemma SingleLeads(n: int, unit: string)
    ensures ParseInt(Quantity(n, unit)) == Some(n)
  {
    assert Quantity(n, unit) + "" == Quantity(n, unit);
    QuantityNumber(n, unit, "");
  }

  lemma PairLeads(n: int, unit: string, m: int, unit2: string)
    ensures ParseInt(Quantity(n, unit) + " " + Quantity(m, unit2)) == Some(n)
  {
    var second := Quantity(m, unit2);
    ConcatAssoc(Quantity(n, unit), " ", second);
    QuantityNumber(n, unit, " " + second);
  }

  /** The leading number of a time difference is the count of its largest unit. */
  lemma TimeDifferenceLeads(start: int, end: int)
    ensures ParseInt(TimeDifference(start, end)) == Some(LeadingCount(SpanOf(start - end)))
  {
    SpanTextLeads(SpanOf(start - end));
  }

  /** The whole text of a difference, stated on its floored seconds `t` alone: the largest
      unit, then the next one only when its remainder is not 0, each count singular exactly
      at 1 (the spelling of `Quantity`). */
  lemma TimeDifferenceText(start: int, end: int)
    ensures var t := (start - end) / 1000;
      t >= 3600 ==>
        TimeDifference(start, end) ==
          Quantity(t / 3600, "hour")
          + (if (t / 60) % 60 > 0 then " " + Quantity((t / 60) % 60, "minute") else "")
    ensures var t := (start - end) / 1000;
      60 <= t < 3600 ==>
        TimeDifference(start, end) ==
          Quantity(t / 60, "minute") + (if t % 60 > 0 then " " + Quantity(t % 60, "second") else "")
    ensures var t := (start - end) / 1000;
      t < 60 ==> TimeDifference(start, end) == Quantity(t, "second")
  {
    var t := (start - end) / 1000;
    NestedDiv(t);
    if t >= 3600 {
      HoursText(start - end, t);
    } else if t >= 60 {
      MinutesText(start - end, t);
    } else {
      assert t / 60 <= 0 && (t / 60) / 60 <= 0;
    }
  }

  lemma HoursText(ms: int, t: int)
    requires t == ms / 1000 && t >= 3600 && (t / 60) / 60 == t / 3600
    ensures SpanText(SpanOf(ms)) ==
      Quantity(t / 3600, "hour")
      + (if (t / 60) % 60 > 0 then " " + Quantity((t / 60) % 60, "minute") else "")
  {
    assert SpanOf(ms) == HoursSpan(t / 3600, (t / 60) % 60);
    var h, m := Quantity(t / 3600, "hour"), Quantity((t / 60) % 60, "minute");
    ConcatAssoc(h, " ", m);
    assert h + "" == h;
  }

  lemma MinutesText(ms: int, t: int)
    requires t == ms / 1000 && 60 <= t < 3600 && (t / 60) / 60 == t / 3600
    ensures SpanText(SpanOf(ms)) ==
      Quantity(t / 60, "minute") + (if t % 60 > 0 then " " + Quantity(t % 60, "second") else "")
  {
    assert (t / 60) / 60 == 0 && t / 60 > 0;
    assert SpanOf(ms) == MinutesSpan(t / 60, t % 60);
    var m, sec := Quantity(t / 60, "minute"), Quantity(t % 60, "second");
    ConcatAssoc(m, " ", sec);
    assert m + "" == m;
  }

  /** Flooring by 60 twice is flooring by 3600. */
  lemma NestedDiv(t: int)
    ensures (t / 60) / 60 == t / 3600
  {
    var m, h := t / 60, (t / 60) / 60;
    DivBounds(t, 60);
    DivBounds(m, 60);
    assert t == 3600 * h + 60 * (m - 60 * h) + (t - 60 * m);
    DivUnique(t, 3600, h);
  }

  /** A span of no negative length leads with no negative count. */
  lemma SpanNotNegative(ms: int)
    requires ms >= 0
    ensures LeadingCount(SpanOf(ms)) >= 0
  {
    var total := ms / 1000;
    assert total >= 0;
    var sp := SpanOf(ms);
    assert sp.SecondsSpan? ==> sp.seconds == total;
  }

  lemma TimeDifferenceWholeHour()
    ensures TimeDifference(3600000, 0) == "1 hour"
  {
    assert SpanOf(3600000) == HoursSpan(1, 0);
    assert IntToString(1) == "1";
  }

  lemma TimeDifferenceHourMinutes()
    ensures TimeDifference(3900000, 0) == "1 hour 5 minutes"
  {
    assert SpanOf(3900000) == HoursSpan(1, 5);
    assert IntToString(1) == "1";
    assert IntToString(5) == "5";
  }

  lemma TimeDifferenceMinuteSecond()
    ensures TimeDifference(61999, 0) == "1 minute 1 second"
  {
    assert SpanOf(61999) == MinutesSpan(1, 1);
    assert IntToString(1) == "1";
  }

  /** A start before the end gives a negative count of seconds. */
  lemma TimeDifferenceNegative()
    ensures TimeDifference(0, 1500) == "-2 seconds"
  {
    assert SpanOf(-1500) == SecondsSpan(-2);
    assert IntToString(-2) == "-2";
  }

  /** The calendar fields `formatTimestamp` reads from a Date (the month is 0-based). */
  datatype DateFields = DateFields(year: int, month: nat, day: nat, hours: nat, minutes: nat, seconds: nat)

  /** `formatTimestamp`: "YYYY-MM-DD HH:mm:ss", every field but the year padded to two digits. */
  function FormatTimestamp(d: DateFields): string
  {
    IntToString(d.year) + "-" + Pad2(d.month + 1) + "-" + Pad2(d.day) + " "
      + Pad2(d.hours) + ":" + Pad2(d.minutes) + ":" + Pad2(d.seconds)
  }

  lemma FourDigits(n: nat)
    requires 1000 <= n <= 9999
    ensures |NatToString(n)| == 4 && DigitsValue(NatToString(n), 10) == n
  {
    assert |NatToString(n / 1000)| == 1;
    assert |NatToString(n / 100)| == 2;
    assert |NatToString(n / 10)| == 3;
    NatToStringValue(n);
  }

  /** For a four-digit year and in-range fields the stamp is 19 characters with every field
      at a fixed position, from which it reads back. */
  lemma FormatTimestampLayout(d: DateFields)
    requires 1000 <= d.year <= 9999 && d.month < 12 && d.day < 100
    requires d.hours < 100 && d.minutes < 100 && d.seconds < 100
    ensures var s := FormatTimestamp(d);
      && |s| == 19
      && s[4] == '-' && s[7] == '-' && s[10] == ' ' && s[13] == ':' && s[16] == ':'
      && DigitsValue(s[0..4], 10) == d.year
      && DigitsValue(s[5..7], 10) == d.month + 1
      && DigitsValue(s[8..10], 10) == d.day
      && DigitsValue(s[11..13], 10) == d.hours
      && DigitsValue(s[14..16], 10) == d.minutes
      && DigitsValue(s[17..19], 10) == d.seconds
  {
    FourDigits(d.year);
    var y, mo, da := IntToString(d.year), Pad2(d.month + 1), Pad2(d.day);
    var h, mi, se := Pad2(d.hours), Pad2(d.minutes), Pad2(d.seconds);
    StampLayout(y, mo, da, h, mi, se);
    assert FormatTimestamp(d) == y + "-" + mo + "-" + da + " " + h + ":" + mi + ":" + se;
  }

  /** The layout of the stamp given only the lengths of its fields. */
  lemma StampLayout(y: string, mo: string, da: string, h: string, mi: string, se: string)
    requires |y| == 4 && |mo| == 2 && |da| == 2 && |h| == 2 && |mi| == 2 && |se| == 2
    ensures var s := y + "-" + mo + "-" + da + " " + h + ":" + mi + ":" + se;
      && |s| == 19
      && s[4] == '-' && s[7] == '-' && s[10] == ' ' && s[13] == ':' && s[16] == ':'
      && s[0..4] == y && s[5..7] == mo && s[8..10] == da
      && s[11..13] == h && s[14..16] == mi && s[17..19] == se
  {
    var date, time := y + "-" + mo + "-" + da, " " + h + ":" + mi + ":" + se;
    DateLayout(y, mo, da);
    TimeLayout(h, mi, se);
    var s := y + "-" + mo + "-" + da + " " + h + ":" + mi + ":" + se;
    assert s == date + time;
    assert s[0..4] == date[0..4] && s[5..7] == date[5..7] && s[8..10] == date[8..10];
    assert s[11..13] == time[1..3] && s[14..16] == time[4..6] && s[17..19] == time[7..9];
  }

  lemma DateLayout(y: string, mo: string, da: string)
    requires |y| == 4 && |mo| == 2 && |da| == 2
    ensures var s := y + "-" + mo + "-" + da;
      |s| == 10 && s[4] == '-' && s[7] == '-' && s[0..4] == y && s[5..7] == mo && s[8..10] == da
  {
  }

  lemma TimeLayout(h: string, mi: string, se: string)
    requires |h| == 2 && |mi| == 2 && |se| == 2
    ensures var s := " " + h + ":" + mi + ":" + se;
      |s| == 9 && s[0] == ' ' && s[3] == ':' && s[6] == ':' && s[1..3] == h && s[4..6] == mi && s[7..9] == se
  {
  }

  /** `durationMs(ns)`: nanoseconds rounded to the nearest millisecond, then "ms". */
  function DurationMs(ns: int): string
  {
    IntToString(RoundDiv(ns, NsPerMs)) + "ms"
  }

  /** The text is a number followed by "ms", and the number is the duration in milliseconds
      rounded half up. */
  lemma DurationMsReadsBack(ns: int)
    ensures EndsWith(DurationMs(ns), "ms")
    ensures ParseInt(DurationMs(ns)) == Some(RoundDiv(ns, NsPerMs))
  {
    ParseIntOfNumeral(RoundDiv(ns, NsPerMs), "ms");
  }

  /** What `formatRefreshInterval` prints: a number of minutes (a JavaScript number, possibly
      fractional) with "m", or a number of seconds with "s". */
  datatype IntervalLabel = MinutesLabel(minutes: real) | SecondsLabel(seconds: int)

  /** `formatRefreshInterval(seconds)`: minutes from one minute up, else seconds. */
  function FormatRefreshInterval(seconds: int): (l: IntervalLabel)
    ensures l.MinutesLabel? <==> seconds >= 60
    ensures l.MinutesLabel? ==> l.minutes * 60.0 == seconds as real && l.minutes >= 1.0
    ensures l.SecondsLabel? ==> l.seconds == seconds
  {
    if seconds >= 60 then MinutesLabel(seconds as real / 60.0) else SecondsLabel(seconds)
  }

  /** The text of a label whose number is whole (JavaScript prints whole numbers plainly). */
  function IntervalLabelText(l: IntervalLabel): string
    requires l.MinutesLabel? ==> l.minutes == l.minutes.Floor as real
  {
    match l
    case MinutesLabel(m) => IntToString(m.Floor) + "m"
    case SecondsLabel(s) => IntToString(s) + "s"
  }
}
