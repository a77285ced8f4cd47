/**
 * Time-label arithmetic and the conflict rules of the calendar: the half-open
 * overlap test per team member, the exact-start occupancy lookup, duration
 * formatting, "h:mm am/pm" parsing and end-time computation, the status colour
 * tables and the thirteen whole-hour slots from 6:00 am to 6:00 pm.
 */
module AppointmentUtils {
  import opened Wrappers
  import opened Sequences
  import opened Text
  import opened AppContext

  // ---------------------------------------------------------------------------
  // Conflict detection

  /** The candidate placement: the fields of a `Partial<ClientAppointment>` the check reads. */
  datatype Candidate = Candidate(member: Option<int>, startHour: Option<int>, duration: Option<int>)

  datatype ConflictResult = ConflictResult(hasConflict: bool, conflicting: seq<Appointment>)

  /** Start of the candidate window in minutes after 6:00 am; a missing start hour is slot 0. */
  function CandidateStart(c: Candidate): int {
    c.startHour.GetOr(0) * 60
  }

  /** End of the candidate window; a missing duration is one hour. */
  function CandidateEnd(c: Candidate): int {
    CandidateStart(c) + c.duration.GetOr(60)
  }

  function Max(a: int, b: int): int { if a >= b then a else b }

  function Min(a: int, b: int): int { if a <= b then a else b }

  /** Half-open intervals `[s1, e1)` and `[s2, e2)` share a point: `max(starts) < min(ends)`. */
  predicate Overlaps(s1: int, e1: int, s2: int, e2: int) {
    Max(s1, s2) < Min(e1, e2)
  }

  /** `excludeId && existing.id === excludeId`: an empty exclude id is falsy and excludes nothing. */
  predicate Excluded(a: Appointment, excludeId: Option<string>) {
    excludeId.Some? && excludeId.value != "" && a.id == excludeId.value
  }

  /** The filter condition of the conflict check for one existing appointment. */
  predicate IsConflict(c: Candidate, a: Appointment, excludeId: Option<string>) {
    && !Excluded(a, excludeId)
    && c.member == Some(a.member)
    && Overlaps(CandidateStart(c), CandidateEnd(c), a.startHour * 60, a.startHour * 60 + a.duration)
  }

  /**
   * The existing appointments the candidate overlaps, in their original order;
   * `hasConflict` says whether there is any.
   */
  function CheckAppointmentConflict(c: Candidate, existing: seq<Appointment>, excludeId: Option<string>): (r: ConflictResult)
    ensures r.hasConflict <==> exists i :: 0 <= i < |existing| && IsConflict(c, existing[i], excludeId)
    ensures r.hasConflict <==> |r.conflicting| > 0
    ensures forall i :: 0 <= i < |r.conflicting| ==> r.conflicting[i] in existing && IsConflict(c, r.conflicting[i], excludeId)
    ensures forall i :: 0 <= i < |existing| && IsConflict(c, existing[i], excludeId) ==> existing[i] in r.conflicting
  {
    var conflicting := Filter(existing, (a: Appointment) => IsConflict(c, a, excludeId));
    assert forall i :: 0 <= i < |existing| && IsConflict(c, existing[i], excludeId) ==> existing[i] in conflicting;
    assert |conflicting| > 0 ==> conflicting[0] in existing && IsConflict(c, conflicting[0], excludeId);
    ConflictResult(|conflicting| > 0, conflicting)
  }

  /** The reported appointments keep the order they have in the collection. */
  lemma ConflictsKeepOrder(c: Candidate, a: seq<Appointment>, b: seq<Appointment>, excludeId: Option<string>)
    ensures CheckAppointmentConflict(c, a + b, excludeId).conflicting
         == CheckAppointmentConflict(c, a, excludeId).conflicting + CheckAppointmentConflict(c, b, excludeId).conflicting
  {
    FilterConcat(a, b, (x: Appointment) => IsConflict(c, x, excludeId));
  }

  /** Each conflicting appointment is reported as often as it occurs in the collection, and no other is. */
  lemma ConflictsCounted(c: Candidate, existing: seq<Appointment>, excludeId: Option<string>)
    ensures forall a :: multiset(CheckAppointmentConflict(c, existing, excludeId).conflicting)[a]
                     == (if IsConflict(c, a, excludeId) then multiset(existing)[a] else 0)
  {
    FilterCounts(existing, (a: Appointment) => IsConflict(c, a, excludeId));
  }

  /** Missing fields of the candidate default to slot 0 and one hour. */
  lemma CandidateDefaults(m: Option<int>, start: int, dur: int)
    ensures CandidateStart(Candidate(m, None, Some(dur))) == 0
    ensures CandidateEnd(Candidate(m, Some(start), None)) == start * 60 + 60
    ensures CandidateEnd(Candidate(m, None, None)) == 60
  {
  }

  /** Intervals that only touch never conflict, whichever side the other one is on. */
  lemma TouchingNeverConflicts(c: Candidate, a: Appointment, excludeId: Option<string>)
    requires a.startHour * 60 + a.duration == CandidateStart(c) || a.startHour * 60 == CandidateEnd(c)
    ensures !IsConflict(c, a, excludeId)
    ensures !CheckAppointmentConflict(c, [a], excludeId).hasConflict
  {
  }

  /** The overlap test does not depend on which interval comes first. */
  lemma OverlapsSymmetric(s1: int, e1: int, s2: int, e2: int)
    ensures Overlaps(s1, e1, s2, e2) <==> Overlaps(s2, e2, s1, e1)
  {
  }

  /** An appointment placed as a candidate: its member, start and duration. */
  function AsCandidate(a: Appointment): Candidate {
    Candidate(Some(a.member), Some(a.startHour), Some(a.duration))
  }

  /** Two appointments of the same member clash with each other or with neither. */
  lemma ConflictSymmetric(a: Appointment, b: Appointment)
    ensures CheckAppointmentConflict(AsCandidate(a), [b], Some(a.id)).hasConflict
        <==> CheckAppointmentConflict(AsCandidate(b), [a], Some(b.id)).hasConflict
  {
    var ra := CheckAppointmentConflict(AsCandidate(a), [b], Some(a.id));
    var rb := CheckAppointmentConflict(AsCandidate(b), [a], Some(b.id));
    assert ra.hasConflict <==> IsConflict(AsCandidate(a), b, Some(a.id));
    assert rb.hasConflict <==> IsConflict(AsCandidate(b), a, Some(b.id));
    OverlapsSymmetric(a.startHour * 60, a.startHour * 60 + a.duration, b.startHour * 60, b.startHour * 60 + b.duration);
  }

  /** The excluded appointment and appointments of other members are never reported. */
  lemma NeverReported(c: Candidate, existing: seq<Appointment>, excludeId: Option<string>, a: Appointment)
    requires Excluded(a, excludeId) || c.member != Some(a.member)
    ensures a !in CheckAppointmentConflict(c, existing, excludeId).conflicting
  {
  }

  // ---------------------------------------------------------------------------
  // Exact-start occupancy

  datatype Availability = Availability(isOccupied: bool, appointment: Option<Appointment>)

  /** Whether some appointment of row `memberIndex` starts exactly at slot `timeIndex`, and the first one. */
  function GetTimeSlotAvailability(timeIndex: int, memberIndex: int, apts: seq<Appointment>): (r: Availability)
    ensures r.isOccupied <==> exists i :: 0 <= i < |apts| && apts[i].startHour == timeIndex && apts[i].member == memberIndex + 1
    ensures r.isOccupied <==> r.appointment.Some?
    ensures r.isOccupied ==> exists k :: (0 <= k < |apts| && r.appointment.value == apts[k]
      && apts[k].startHour == timeIndex && apts[k].member == memberIndex + 1
      && forall j :: 0 <= j < k ==> !(apts[j].startHour == timeIndex && apts[j].member == memberIndex + 1))
  {
    match FindFirst(apts, (a: Appointment) => a.startHour == timeIndex && a.member == memberIndex + 1)
    case None => Availability(false, None)
    case Some(k) => Availability(true, Some(apts[k]))
  }

  // ---------------------------------------------------------------------------
  // Duration formatting

  /** `formatDuration` for a duration of `d` minutes: "M min", "Hh" or "Hh Mm". */
  function FormatDuration(d: int): (r: string)
    ensures 0 <= d < 60 ==> r == IntToString(d) + " min"
    ensures (d < 0 || d >= 60) && d % 60 == 0 ==> r == IntToString(d / 60) + "h"
    ensures (d < 0 || d >= 60) && d % 60 != 0 ==> r == IntToString(d / 60) + "h " + IntToString(d % 60) + "m"
  {
    DurationLabel(d / 60, d % 60)
  }

  /** The three shapes of a duration label, chosen by its whole hours and remaining minutes. */
  function DurationLabel(hours: int, minutes: int): string {
    if hours == 0 then IntToString(minutes) + " min"
    else if minutes == 0 then IntToString(hours) + "h"
    else IntToString(hours) + "h " + IntToString(minutes) + "m"
  }

  lemma IntToStringHasNoLetters(n: int)
    ensures 'h' !in IntToString(n) && 'n' !in IntToString(n) && 'm' !in IntToString(n) && ' ' !in IntToString(n)
  {
    var s := NatToString(if n < 0 then -n else n);
    assert AllDigits(s);
    assert forall i :: 0 <= i < |IntToString(n)| ==> IntToString(n)[i] == '-' || IsDigit(IntToString(n)[i]);
  }

  /** Distinct durations are shown as distinct labels. */
  lemma FormatDurationInjective(d1: int, d2: int)
    requires FormatDuration(d1) == FormatDuration(d2)
    ensures d1 == d2
  {
    DurationLabelInjective(d1 / 60, d1 % 60, d2 / 60, d2 % 60);
  }

  /** The label gives back its hours and minutes. */
  lemma DurationLabelInjective(h1: int, m1: int, h2: int, m2: int)
    requires DurationLabel(h1, m1) == DurationLabel(h2, m2)
    ensures h1 == h2 && m1 == m2
  {
    var s := DurationLabel(h1, m1);
    IntToStringHasNoLetters(h1); IntToStringHasNoLetters(m1);
    IntToStringHasNoLetters(h2); IntToStringHasNoLetters(m2);
    // The last character tells the three shapes apart.
    assert s[|s| - 1] == (if h1 == 0 then 'n' else if m1 == 0 then 'h' else 'm');
    assert s[|s| - 1] == (if h2 == 0 then 'n' else if m2 == 0 then 'h' else 'm');
    if h1 == 0 {
      assert IntToString(m1) == s[..|s| - 4] == IntToString(m2);
      IntToStringInjective(m1, m2);
    } else if m1 == 0 {
      assert IntToString(h1) == s[..|s| - 1] == IntToString(h2);
      IntToStringInjective(h1, h2);
    } else {
      HoursAndMinutesLabel(h1, m1, h2, m2);
    }
  }

  lemma HoursAndMinutesLabel(h1: int, m1: int, h2: int, m2: int)
    requires IntToString(h1) + "h " + IntToString(m1) + "m" == IntToString(h2) + "h " + IntToString(m2) + "m"
    ensures h1 == h2 && m1 == m2
  {
    IntToStringHasNoLetters(h1);
    IntToStringHasNoLetters(h2);
    SplitAtHours(IntToString(h1), IntToString(m1), IntToString(h2), IntToString(m2));
    IntToStringInjective(h1, h2);
    IntToStringInjective(m1, m2);
  }

  /** "Hh Mm" splits back into its hours and minutes when the hours hold no 'h'. */
  lemma SplitAtHours(a1: string, b1: string, a2: string, b2: string)
    requires 'h' !in a1 && 'h' !in a2
    requires a1 + "h " + b1 + "m" == a2 + "h " + b2 + "m"
    ensures a1 == a2 && b1 == b2
  {
    var rest1, rest2 := " " + b1 + "m", " " + b2 + "m";
    assert a1 + "h " + b1 + "m" == a1 + ['h'] + rest1;
    assert a2 + "h " + b2 + "m" == a2 + ['h'] + rest2;
    SplitAtFirst(a1, 'h', rest1);
    SplitAtFirst(a2, 'h', rest2);
    assert b1 == rest1[1..|rest1| - 1];
    assert b2 == rest2[1..|rest2| - 1];
  }

  // ---------------------------------------------------------------------------
  // Clock labels

  /** `parseTimeString`: `hour`/`minute` are `None` where `parseInt` gives `NaN`. */
  datatype TimeParts = TimeParts(hour: Option<int>, minute: Option<int>, isPM: bool)

  /**
   * Splits "h:mm period" on the first space and the first colon. `None` when
   * there is no space: the period is then undefined and the code throws.
   */
  function ParseTimeString(s: string): Option<TimeParts> {
    match SecondPiece(s, ' ')
    case None => None
    case Some(period) =>
      var time := Before(s, ' ');
      var minuteStr := match SecondPiece(time, ':')
        case None => "0"
        case Some(m) => if m == "" then "0" else m;
      Some(TimeParts(ParseInt(Before(time, ':')), ParseInt(minuteStr), IsPmWord(period)))
  }

  /** 12-hour to 24-hour: 12 am is 0, pm adds 12 except to 12 pm. */
  function To24Hour(hour: int, isPM: bool): int {
    if isPM && hour != 12 then hour + 12 else if !isPM && hour == 12 then 0 else hour
  }

  /** 24-hour to 12-hour: 0 is 12, hours after 12 lose 12. */
  function To12Hour(hour24: int): int {
    if hour24 > 12 then hour24 - 12 else if hour24 == 0 then 12 else hour24
  }

  /** "h:mm am/pm" with the minutes padded to two digits; "pm" from 12:00 on. */
  function RenderTime(hour24: int, minute: int): string {
    IntToString(To12Hour(hour24)) + ":" + PadStart2(IntToString(minute)) + " " + (if hour24 >= 12 then "pm" else "am")
  }

  /** The label of minute `m` of the day, taken modulo 24 hours. */
  function ClockLabel(m: int): string {
    var t := m % 1440;
    RenderTime(t / 60, t % 60)
  }

  /**
   * `calculateEndTime`: the label `duration` minutes after `startTime`. The
   * hour wraps modulo 24 with JavaScript's remainder, so a negative total
   * stays negative. `None` where the code throws.
   */
  function CalculateEndTime(startTime: string, duration: int): Option<string> {
    match ParseTimeString(startTime)
    case None => None
    case Some(p) => Some(EndLabel(p, duration))
  }

  /** The end label for parsed start parts: "NaN:NaN am" when the hour or the minute is `NaN`. */
  function EndLabel(p: TimeParts, duration: int): string {
    if p.hour.None? || p.minute.None? then "NaN:NaN am"
    else
      var endMinutes := To24Hour(p.hour.value, p.isPM) * 60 + p.minute.value + duration;
      RenderTime(JsRem(endMinutes / 60, 24), JsRem(endMinutes, 60))
  }

  lemma To24HourInverts(h24: int)
    requires 0 <= h24 < 24
    ensures 1 <= To12Hour(h24) <= 12
    ensures To24Hour(To12Hour(h24), h24 >= 12) == h24
  {
  }

  lemma PaddedMinute(mi: int)
    requires 0 <= mi < 60
    ensures AllDigits(PadStart2(IntToString(mi))) && |PadStart2(IntToString(mi))| == 2
    ensures ParseInt(PadStart2(IntToString(mi))) == Some(mi)
  {
    var s := NatToString(mi);
    DigitsValueOfNatToString(mi);
    if mi < 10 {
      DigitsValueLeadingZero(s);
      DigitPrefixOfDigits("0" + s);
    } else {
      assert |s| == 2;
      DigitPrefixOfDigits(s);
    }
  }

  /** Parsing a rendered clock label gives back its 12-hour hour, its minute and its period. */
  lemma ParseRenderedTime(h24: int, mi: int)
    requires 0 <= h24 < 24 && 0 <= mi < 60
    ensures ParseTimeString(RenderTime(h24, mi)) == Some(TimeParts(Some(To12Hour(h24)), Some(mi), h24 >= 12))
  {
    To24HourInverts(h24);
    PaddedMinute(mi);
    IntToStringHasNoLetters(To12Hour(h24));
    ParseIntOfIntToString(To12Hour(h24));
    var a := IntToString(To12Hour(h24));
    assert AllDigits(a);
    ParseDigitLabel(a, PadStart2(IntToString(mi)), if h24 >= 12 then "pm" else "am");
  }

  /** "a:b per" with digits `a` and `b` splits into `a`, `b` and `per`. */
  lemma ParseDigitLabel(a: string, b: string, per: string)
    requires AllDigits(a) && AllDigits(b) && b != []
    requires ' ' !in per
    ensures ParseTimeString(a + ":" + b + " " + per) == Some(TimeParts(ParseInt(a), ParseInt(b), IsPmWord(per)))
  {
    var time := a + ":" + b;
    assert ' ' !in time by {
      assert forall i :: 0 <= i < |time| ==> time[i] == ':' || IsDigit(time[i]);
    }
    assert ':' !in a;
    assert ':' !in b;
    assert a + ":" + b + " " + per == time + [' '] + per;
    SplitAtFirst(time, ' ', per);
    SplitWithout(per, ' ');
    assert time == a + [':'] + b;
    SplitAtFirst(a, ':', b);
    SplitWithout(b, ':');
  }

  lemma DayArithmetic(n: int)
    requires n >= 0
    ensures (n / 60) % 24 == (n % 1440) / 60
    ensures n % 60 == (n % 1440) % 60
  {
    var q, r := n / 1440, n % 1440;
    assert n == 1440 * q + r;
    assert n == 60 * (24 * q + r / 60) + r % 60;
    assert n / 60 == 24 * q + r / 60;
  }

  /**
   * The end label of a clock label is the clock label of the end minute,
   * taken modulo a day, whenever that end minute is not negative.
   */
  lemma EndTimeOfClockLabel(m: int, d: int)
    requires 0 <= m < 1440 && m + d >= 0
    ensures CalculateEndTime(ClockLabel(m), d) == Some(ClockLabel(m + d))
  {
    ParseClockLabel(m);
    EndTimeOfParsed(ClockLabel(m), m, d);
  }

  /** A clock label parses back into the 12-hour hour, the minute and the period of its minute of the day. */
  lemma ParseClockLabel(m: int)
    requires 0 <= m < 1440
    ensures ParseTimeString(ClockLabel(m)) == Some(TimeParts(Some(To12Hour(m / 60)), Some(m % 60), m / 60 >= 12))
  {
    var h, mi := m / 60, m % 60;
    assert m % 1440 == m;
    assert ClockLabel(m) == RenderTime(h, mi);
    ParseRenderedTime(h, mi);
  }

  /** A label that parses like minute `m` of the day ends on the label of minute `m + d`. */
  lemma EndTimeOfParsed(s: string, m: int, d: int)
    requires 0 <= m < 1440 && m + d >= 0
    requires ParseTimeString(s) == Some(TimeParts(Some(To12Hour(m / 60)), Some(m % 60), m / 60 >= 12))
    ensures CalculateEndTime(s, d) == Some(ClockLabel(m + d))
  {
    var p := TimeParts(Some(To12Hour(m / 60)), Some(m % 60), m / 60 >= 12);
    EndTimeOfParts(s, p, d);
    EndLabelOfMinute(m, d);
    ClockLabelParts(m + d);
  }

  lemma EndLabelOfMinute(m: int, d: int)
    requires 0 <= m < 1440 && m + d >= 0
    ensures var t := (m + d) % 1440;
      EndLabel(TimeParts(Some(To12Hour(m / 60)), Some(m % 60), m / 60 >= 12), d) == RenderTime(t / 60, t % 60)
  {
    var t := (m + d) % 1440;
    EndMinuteArithmetic(m, d);
    EndLabelOfParts(TimeParts(Some(To12Hour(m / 60)), Some(m % 60), m / 60 >= 12), d, t / 60, t % 60);
  }

  lemma EndTimeOfParts(s: string, p: TimeParts, d: int)
    requires ParseTimeString(s) == Some(p)
    ensures CalculateEndTime(s, d) == Some(EndLabel(p, d))
  {
  }

  lemma EndLabelOfParts(p: TimeParts, d: int, endHour: int, endMinute: int)
    requires p.hour.Some? && p.minute.Some?
    requires var e := To24Hour(p.hour.value, p.isPM) * 60 + p.minute.value + d;
      JsRem(e / 60, 24) == endHour && JsRem(e, 60) == endMinute
    ensures EndLabel(p, d) == RenderTime(endHour, endMinute)
  {
  }

  lemma ClockLabelParts(m: int)
    ensures var t := m % 1440; ClockLabel(m) == RenderTime(t / 60, t % 60)
  {
  }

  /** The hour and minute `calculateEndTime` computes from minute `m` of the day are those of minute `m + d`. */
  lemma EndMinuteArithmetic(m: int, d: int)
    requires 0 <= m < 1440 && m + d >= 0
    ensures var h := m / 60;
      var e := To24Hour(To12Hour(h), h >= 12) * 60 + m % 60 + d;
      var t := (m + d) % 1440;
      JsRem(e / 60, 24) == t / 60 && JsRem(e, 60) == t % 60
  {
    To24HourInverts(m / 60);
    assert To24Hour(To12Hour(m / 60), m / 60 >= 12) * 60 + m % 60 + d == m + d;
    DayArithmetic(m + d);
  }

  /** Distinct minutes of a day have distinct labels. */
  lemma ClockLabelInjective(m1: int, m2: int)
    requires 0 <= m1 < 1440 && 0 <= m2 < 1440
    requires ClockLabel(m1) == ClockLabel(m2)
    ensures m1 == m2
  {
    ParseClockLabel(m1);
    ParseClockLabel(m2);
    SameClockParts(m1, m2);
  }

  /** The 12-hour hour, the minute and the period determine the minute of the day. */
  lemma SameClockParts(m1: int, m2: int)
    requires 0 <= m1 < 1440 && 0 <= m2 < 1440
    requires To12Hour(m1 / 60) == To12Hour(m2 / 60) && m1 % 60 == m2 % 60 && (m1 / 60 >= 12) == (m2 / 60 >= 12)
    ensures m1 == m2
  {
    To24HourInverts(m1 / 60);
    To24HourInverts(m2 / 60);
  }

  /** A start label without a space has no period: the code throws. */
  lemma EndTimeWithoutSpace(startTime: string, d: int)
    requires ' ' !in startTime
    ensures CalculateEndTime(startTime, d) == None
  {
    SplitWithout(startTime, ' ');
  }

  /** An hour that `parseInt` cannot read makes the end label "NaN:NaN am", whatever the duration. */
  lemma EndTimeOfUnreadableHour(time: string, period: string, d: int)
    requires ' ' !in time
    requires ParseInt(Before(time, ':')) == None
    ensures CalculateEndTime(time + " " + period, d) == Some("NaN:NaN am")
  {
    assert time + " " + period == time + [' '] + period;
    SplitAtFirst(time, ' ', period);
  }

  /** "nine am" is such a label. */
  lemma EndTimeOfWordHour(d: int)
    ensures CalculateEndTime("nine am", d) == Some("NaN:NaN am")
  {
    assert "nine am" == "nine" + " " + "am";
    SplitWithout("nine", ':');
    EndTimeOfUnreadableHour("nine", "am", d);
  }

  // ---------------------------------------------------------------------------
  // Status colours

  function StatusColor(s: Status): string {
    match s
    case Completed => "#EEF6FF"
    case Active => "#FBF5FF"
    case Pending => "#FEF7EC"
  }

  function StatusBorderColor(s: Status): string {
    match s
    case Completed => "#CBDDEE"
    case Active => "#E8E3F5"
    case Pending => "#EFD8C0"
  }

  /** Each status has its own background and its own border colour. */
  lemma StatusColorsDistinct(s1: Status, s2: Status)
    requires s1 != s2
    ensures StatusColor(s1) != StatusColor(s2)
    ensures StatusBorderColor(s1) != StatusBorderColor(s2)
  {
  }

  // ---------------------------------------------------------------------------
  // The thirteen slots

  datatype TimeSlot = TimeSlot(value: string, labelText: string, index: int)

  /** The label of slot `i`: hour `6 + i` of the day, minute 0. */
  function SlotValue(i: int): string {
    RenderTime(6 + i, 0)
  }

  /** The slot list `generateTimeSlots` builds. */
  function TimeSlots(): seq<TimeSlot> {
    seq(13, i requires 0 <= i < 13 => TimeSlot(SlotValue(i), Upper(SlotValue(i)), i))
  }

  lemma ClockLabelOfHour(h: int)
    requires 0 <= h < 24
    ensures ClockLabel(60 * h) == RenderTime(h, 0)
  {
    var m := 60 * h;
    assert m % 1440 == m;
    assert m / 60 == h && m % 60 == 0;
  }

  /** The hour formula of the slot loop agrees with the clock rendering. */
  lemma SlotFormula(i: int)
    requires 0 <= i <= 12
    ensures IntToString(((6 + i + 11) % 12) + 1) + ":00 " + (if 6 + i >= 12 then "pm" else "am") == SlotValue(i)
  {
    RenderWholeHour(6 + i);
    SlotHourFormula(i);
  }

  /** Slot `i` is labelled like minute `m = 360 + 60 * i` of the day: `i` whole hours after 6:00 am. */
  lemma SlotValueIsClockLabel(i: int, m: int)
    requires 0 <= i <= 12 && m == 360 + 60 * i
    ensures SlotValue(i) == ClockLabel(m)
  {
    assert m == 60 * (6 + i);
    ClockLabelOfHour(6 + i);
  }

  lemma SlotHourFormula(i: int)
    requires 0 <= i <= 12
    ensures ((6 + i + 11) % 12) + 1 == To12Hour(6 + i)
  {
  }

  lemma RenderWholeHour(h: int)
    ensures RenderTime(h, 0) == IntToString(To12Hour(h)) + ":00 " + (if h >= 12 then "pm" else "am")
  {
    var x := IntToString(To12Hour(h));
    var per := if h >= 12 then "pm" else "am";
    assert IntToString(0) == "0";
    assert PadStart2("0") == "00";
    assert x + ":" + "00" + " " + per == x + ":00 " + per;
  }

  /** `generateTimeSlots`: hours 6 to 18, each rendered as "h:00 am/pm" with its upper-cased label. */
  method GenerateTimeSlots() returns (slots: seq<TimeSlot>)
    ensures slots == TimeSlots()
  {
    slots := [];
    var i := 0;
    while i <= 12
      invariant 0 <= i <= 13
      invariant slots == TimeSlots()[..i]
    {
      var hour24 := 6 + i;
      var period := if hour24 >= 12 then "pm" else "am";
      var hour12 := ((hour24 + 11) % 12) + 1;
      var value := IntToString(hour12) + ":00 " + period;
      SlotEntry(i, value);
      slots := slots + [TimeSlot(value, Upper(value), i)];
      i := i + 1;
    }
    WholePrefix(TimeSlots());
  }

  /** The loop's `i`-th entry extends the slot list. */
  lemma SlotEntry(i: int, value: string)
    requires 0 <= i <= 12
    requires value == IntToString(((6 + i + 11) % 12) + 1) + ":00 " + (if 6 + i >= 12 then "pm" else "am")
    ensures |TimeSlots()| == 13
    ensures TimeSlots()[..i + 1] == TimeSlots()[..i] + [TimeSlot(value, Upper(value), i)]
  {
    SlotFormula(i);
    SlotAppend(i, value);
  }

  lemma SlotAppend(i: int, value: string)
    requires 0 <= i <= 12 && value == SlotValue(i)
    ensures |TimeSlots()| == 13
    ensures TimeSlots()[..i + 1] == TimeSlots()[..i] + [TimeSlot(value, Upper(value), i)]
  {
    TimeSlotAt(i);
    PrefixStep(TimeSlots(), i);
  }

  lemma TimeSlotAt(i: int)
    requires 0 <= i <= 12
    ensures |TimeSlots()| == 13
    ensures TimeSlots()[i] == TimeSlot(SlotValue(i), Upper(SlotValue(i)), i)
  {
  }

  lemma WholeHourLabel(i: int, hour12: string, period: string)
    requires 0 <= i <= 12
    requires IntToString(To12Hour(6 + i)) == hour12
    requires period == (if 6 + i >= 12 then "pm" else "am")
    ensures SlotValue(i) == hour12 + ":00 " + period
  {
    RenderWholeHour(6 + i);
  }

  /** The thirteen slot labels, written out. */
  const SlotLabels: seq<string> := [
    "6:00 am", "7:00 am", "8:00 am", "9:00 am", "10:00 am", "11:00 am", "12:00 pm",
    "1:00 pm", "2:00 pm", "3:00 pm", "4:00 pm", "5:00 pm", "6:00 pm"
  ]

  lemma SlotLabelsSpelled()
    ensures |SlotLabels| == 13
    ensures SlotLabels[0] == "6" + ":00 " + "am" && SlotLabels[1] == "7" + ":00 " + "am"
    ensures SlotLabels[2] == "8" + ":00 " + "am" && SlotLabels[3] == "9" + ":00 " + "am"
    ensures SlotLabels[4] == "10" + ":00 " + "am" && SlotLabels[5] == "11" + ":00 " + "am"
    ensures SlotLabels[6] == "12" + ":00 " + "pm" && SlotLabels[7] == "1" + ":00 " + "pm"
    ensures SlotLabels[8] == "2" + ":00 " + "pm" && SlotLabels[9] == "3" + ":00 " + "pm"
    ensures SlotLabels[10] == "4" + ":00 " + "pm" && SlotLabels[11] == "5" + ":00 " + "pm"
    ensures SlotLabels[12] == "6" + ":00 " + "pm"
  {
  }

  /** Slot `i` is labelled as listed in `SlotLabels`. */
  lemma SlotValueListed(i: int)
    requires 0 <= i <= 12
    ensures SlotValue(i) == SlotLabels[i]
  {
    SlotLabelsSpelled();
    if i == 0 { WholeHourLabel(0, "6", "am"); }
    else if i == 1 { WholeHourLabel(1, "7", "am"); }
    else if i == 2 { WholeHourLabel(2, "8", "am"); }
    else if i == 3 { WholeHourLabel(3, "9", "am"); }
    else if i == 4 { WholeHourLabel(4, "10", "am"); }
    else if i == 5 { WholeHourLabel(5, "11", "am"); }
    else if i == 6 { WholeHourLabel(6, "12", "pm"); }
    else if i == 7 { WholeHourLabel(7, "1", "pm"); }
    else if i == 8 { WholeHourLabel(8, "2", "pm"); }
    else if i == 9 { WholeHourLabel(9, "3", "pm"); }
    else if i == 10 { WholeHourLabel(10, "4", "pm"); }
    else if i == 11 { WholeHourLabel(11, "5", "pm"); }
    else { WholeHourLabel(12, "6", "pm"); }
  }

  /** Thirteen slots, indexed 0 to 12, from "6:00 am" through "12:00 pm" to "6:00 pm", labelled in capitals. */
  lemma TimeSlotsShape()
    ensures |TimeSlots()| == 13
    ensures forall i :: 0 <= i < 13 ==>
      TimeSlots()[i].index == i && TimeSlots()[i].value == SlotLabels[i] && TimeSlots()[i].labelText == Upper(SlotLabels[i])
  {
    forall i | 0 <= i < 13
      ensures TimeSlots()[i].index == i && TimeSlots()[i].value == SlotLabels[i] && TimeSlots()[i].labelText == Upper(SlotLabels[i])
    {
      TimeSlotAt(i);
      SlotValueListed(i);
    }
  }

  /** A slot label can always be read back, whatever the duration. */
  lemma SlotLabelReadable(i: int, d: int)
    requires 0 <= i <= 12
    ensures CalculateEndTime(TimeSlots()[i].value, d).Some?
  {
    TimeSlotAt(i);
    RenderedLabelReadable(SlotValue(i), 6 + i, d);
  }

  lemma RenderedLabelReadable(text: string, h24: int, d: int)
    requires 0 <= h24 < 24 && text == RenderTime(h24, 0)
    ensures CalculateEndTime(text, d).Some?
  {
    ParseRenderedTime(h24, 0);
  }

  /** No two slots share a label. */
  lemma SlotValuesDistinct(i: int, j: int)
    requires 0 <= i < 13 && 0 <= j < 13 && SlotValue(i) == SlotValue(j)
    ensures i == j
  {
    SlotValueIsClockLabel(i, 360 + 60 * i);
    SlotValueIsClockLabel(j, 360 + 60 * j);
    ClockLabelInjective(360 + 60 * i, 360 + 60 * j);
  }

  /** The end label of slot `s` after `d` minutes is the clock label of that minute of the day. */
  lemma SlotEndLabel(s: int, d: int, end: int)
    requires 0 <= s <= 12 && end == 360 + 60 * s + d && end >= 0
    ensures CalculateEndTime(TimeSlots()[s].value, d) == Some(ClockLabel(end))
  {
    var m := 360 + 60 * s;
    TimeSlotAt(s);
    SlotValueIsClockLabel(s, m);
    EndTimeBetweenLabels(SlotValue(s), ClockLabel(end), m, d);
  }

  /** Adding whole hours to a slot label lands on the label of the later slot. */
  lemma SlotRoundTrip(s: int, k: int)
    requires 0 <= s && 0 <= k && s + k <= 12
    ensures CalculateEndTime(TimeSlots()[s].value, 60 * k) == Some(TimeSlots()[s + k].value)
  {
    var end := 360 + 60 * (s + k);
    SlotEndLabel(s, 60 * k, end);
    TimeSlotAt(s + k);
    SlotValueIsClockLabel(s + k, end);
  }

  /** `EndTimeOfClockLabel` on labels already in hand. */
  lemma EndTimeBetweenLabels(start: string, end: string, m: int, d: int)
    requires 0 <= m < 1440 && m + d >= 0
    requires start == ClockLabel(m) && end == ClockLabel(m + d)
    ensures CalculateEndTime(start, d) == Some(end)
  {
    EndTimeOfClockLabel(m, d);
  }
}
