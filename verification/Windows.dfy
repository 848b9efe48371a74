/**
 * Availability windows: when workloads are awake, when the next window opens, and when to look again
 * (internal/controller/hibernatepolicy_controller.go, internal/webhook/hibernatepolicy_webhook.go).
 * Instants are Unix seconds; a time zone is a fixed offset in seconds.
 */
module Windows {
  import opened Options
  import opened Text

  const DAY := 86400
  const WINDOW_CHECK_INTERVAL := 300

  datatype Window = Window(weekdays: seq<string>, from: string, until: string, timezone: string)

  /** Loading a zone by name fails or gives its offset. The empty name is UTC. */
  type Zones = string -> Option<int>

  ghost predicate ZonesOk(zones: Zones) {
    zones("") == zones("UTC") == Some(0)
  }

  /** Minutes after midnight of "15:04" text: one or two hour digits, exactly two minute digits, nothing else. */
  function ParseHHMM(s: string): (r: Option<nat>)
    ensures r.Some? ==> r.value < 24 * 60
  {
    var hourLen := if |s| == 0 || !IsDigit(s[0]) then 0 else if |s| >= 2 && IsDigit(s[1]) then 2 else 1;
    if hourLen == 0 || |s| != hourLen + 3 || s[hourLen] != ':' || !AllDigits(s[hourLen + 1..]) then None
    else
      var hour := Value(s[..hourLen]);
      var minute := Value(s[hourLen + 1..]);
      if hour >= 24 || minute >= 60 then None else Some(hour * 60 + minute)
  }

  function Digit(c: char): int {
    c as int - '0' as int
  }

  /** The form the custom resource admits: two hour digits up to 23, a colon, two minute digits up to 59. */
  predicate IsClockText(s: string) {
    |s| == 5 && s[2] == ':' && IsDigit(s[0]) && IsDigit(s[1]) && IsDigit(s[3]) && IsDigit(s[4])
    && (s[0] <= '1' || (s[0] == '2' && s[1] <= '3')) && s[3] <= '5'
  }

  lemma TwoDigitValue(s: string)
    requires |s| == 2 && AllDigits(s)
    ensures Value(s) == Digit(s[0]) * 10 + Digit(s[1])
  {
    assert s[..1][..0] == "" && Value(s[..1]) == Value("") * 10 + Digit(s[0]);
  }

  /** The minute a clock text shows. */
  function ClockMinute(s: string): int
    requires IsClockText(s)
  {
    (Digit(s[0]) * 10 + Digit(s[1])) * 60 + Digit(s[3]) * 10 + Digit(s[4])
  }

  /** A five-character text parses exactly when it has the admitted form, and to the minute it shows. */
  lemma ClockTextParses(s: string)
    requires |s| == 5
    ensures ParseHHMM(s).Some? <==> IsClockText(s)
    ensures IsClockText(s) ==> ParseHHMM(s).value == ClockMinute(s)
  {
    if IsDigit(s[0]) && IsDigit(s[1]) && s[2] == ':' && AllDigits(s[3..]) {
      assert s[..2][0] == s[0] && s[..2][1] == s[1] && s[3..][0] == s[3] && s[3..][1] == s[4];
      TwoDigitValue(s[..2]);
      TwoDigitValue(s[3..]);
    } else if IsDigit(s[3]) && IsDigit(s[4]) {
      assert AllDigits(s[3..]);
    }
  }

  /** The controller also reads a single hour digit, as if a zero stood before it; no other text parses. */
  lemma OtherTextsParse(s: string)
    ensures |s| == 4 ==> ParseHHMM(s) == ParseHHMM("0" + s)
    ensures |s| != 4 && |s| != 5 ==> ParseHHMM(s).None?
  {
    if |s| == 4 {
      var t := "0" + s;
      assert t[2..] == s[1..] && t[3..] == s[2..] && t[1] == s[0] && t[2] == s[1];
      if IsDigit(s[0]) && !IsDigit(s[1]) {
        assert t[..2][..1] == "0" && t[..2][1] == s[0] && t[..2][..1][..0] == "";
        assert s[..1][0] == s[0] && s[..1][..0] == "";
        TwoDigitValue(t[..2]);
      }
    }
  }

  /** Sunday is 0; an unknown abbreviation counts as Sunday. */
  function WeekdayFromSpec(w: string): (d: nat)
    ensures d < 7
  {
    if w == "Mon" then 1
    else if w == "Tue" then 2
    else if w == "Wed" then 3
    else if w == "Thu" then 4
    else if w == "Fri" then 5
    else if w == "Sat" then 6
    else 0
  }

  predicate ContainsWeekday(weekdays: seq<string>, d: int) {
    exists i :: 0 <= i < |weekdays| && WeekdayFromSpec(weekdays[i]) == d
  }

  function LocalDay(t: int, offset: int): int {
    (t + offset) / DAY
  }

  /** Day 0 was a Thursday. */
  function WeekdayOf(day: int): int {
    (day + 4) % 7
  }

  /** The days of the week in order; only Sunday goes by other texts too. */
  lemma WeekdayNames(w: string, k: nat)
    requires k < 7
    ensures WeekdayFromSpec(w) == k
            <==> w == ["Sun", "Mon", "Tue", "Wed", "Thu", "Fri", "Sat"][k]
                 || (k == 0 && w !in {"Mon", "Tue", "Wed", "Thu", "Fri", "Sat"})
  {
  }

  /** The instant of a wall-clock minute on a local day. */
  function At(day: int, minute: nat, offset: int): int {
    day * DAY + minute * 60 - offset
  }

  /** A window the controller can use: its zone loads and both its times parse. */
  predicate Usable(zones: Zones, w: Window) {
    zones(w.timezone).Some? && ParseHHMM(w.from).Some? && ParseHHMM(w.until).Some?
  }

  /** What the webhook admits: an empty zone name means UTC, and the window does not run over midnight. */
  predicate Admitted(zones: Zones, w: Window) {
    && zones(if w.timezone == "" then "UTC" else w.timezone).Some?
    && ParseHHMM(w.from).Some? && ParseHHMM(w.until).Some?
    && ParseHHMM(w.from).value < ParseHHMM(w.until).value
  }

  /** For texts of the form the custom resource admits: the zone loads and the window ends after it begins. */
  lemma AdmittedIff(zones: Zones, w: Window)
    requires IsClockText(w.from) && IsClockText(w.until)
    ensures Admitted(zones, w)
            <==> (if w.timezone == "" then zones("UTC").Some? else zones(w.timezone).Some?)
                 && ClockMinute(w.from) < ClockMinute(w.until)
  {
    ClockTextParses(w.from);
    ClockTextParses(w.until);
  }

  method ValidateAvailabilityWindows(zones: Zones, windows: seq<Window>) returns (firstBad: Option<nat>)
    ensures firstBad.None? <==> forall i :: 0 <= i < |windows| ==> Admitted(zones, windows[i])
    ensures firstBad.Some? ==> firstBad.value < |windows| && !Admitted(zones, windows[firstBad.value])
    ensures firstBad.Some? ==> forall i :: 0 <= i < firstBad.value ==> Admitted(zones, windows[i])
  {
    for i := 0 to |windows|
      invariant forall j :: 0 <= j < i ==> Admitted(zones, windows[j])
    {
      var w := windows[i];
      var tz := if w.timezone == "" then "UTC" else w.timezone;
      if zones(tz).None? {
        return Some(i);
      }
      var from := ParseHHMM(w.from);
      if from.None? {
        return Some(i);
      }
      var until := ParseHHMM(w.until);
      if until.None? {
        return Some(i);
      }
      if !(from.value < until.value) {
        return Some(i);
      }
    }
    return None;
  }

  /** t lies inside an occurrence of w. */
  predicate Inside(zones: Zones, w: Window, t: int) {
    && Usable(zones, w)
    && var offset := zones(w.timezone).value;
    && ContainsWeekday(w.weekdays, WeekdayOf(LocalDay(t, offset)))
    && At(LocalDay(t, offset), ParseHHMM(w.from).value, offset) <= t < End(zones, w, t)
  }

  /** When the occurrence of w on the local day of t ends. */
  function End(zones: Zones, w: Window, t: int): int
    requires Usable(zones, w)
  {
    At(LocalDay(t, zones(w.timezone).value), ParseHHMM(w.until).value, zones(w.timezone).value)
  }

  /** Sunday 4 January 1970 and every seventh day since; k counts the days from there. */
  function LocalMidnight(week: int, k: nat): int {
    259_200 + week * 604_800 + k * 86_400
  }

  /**
   * The instants inside a window, by the calendar: on a named day of some week, from one clock text up to the other.
   */
  lemma InsideByCalendar(zones: Zones, w: Window, t: int)
    requires zones(w.timezone).Some? && IsClockText(w.from) && IsClockText(w.until)
    ensures Inside(zones, w, t)
            <==> exists week, k: nat {:trigger LocalMidnight(week, k)} ::
                   && k < 7 && ContainsWeekday(w.weekdays, k)
                   && LocalMidnight(week, k) + 60 * ClockMinute(w.from) <= t + zones(w.timezone).value
                   && t + zones(w.timezone).value < LocalMidnight(week, k) + 60 * ClockMinute(w.until)
  {
    ClockTextParses(w.from);
    ClockTextParses(w.until);
    var local := t + zones(w.timezone).value;
    var day := LocalDay(t, zones(w.timezone).value);
    var week, k := (day - 3) / 7, (day - 3) % 7;
    assert k == WeekdayOf(day) by { DayInWeek(week, k); }
    assert LocalMidnight(week, k) == day * DAY;
    forall week', k': nat | k' < 7 && LocalMidnight(week', k') + 60 * ClockMinute(w.from) <= local
                            && local < LocalMidnight(week', k') + 60 * ClockMinute(w.until)
      ensures k' == k && LocalMidnight(week', k') == day * DAY
    {
      assert LocalMidnight(week', k') == (3 + 7 * week' + k') * DAY;
      assert ClockMinute(w.until) <= 24 * 60;
      assert day == 3 + 7 * week' + k';
    }
  }

  lemma DayInWeek(week: int, k: nat)
    requires k < 7
    ensures WeekdayOf(3 + 7 * week + k) == k
  {
    assert 3 + 7 * week + k + 4 == 7 * (week + 1) + k;
  }

  /** A dated instance: in the week that begins on Monday 5 January 2026, office hours on Mondays are that Monday's. */
  lemma OfficeHoursOnMonday(zones: Zones, timezone: string, offset: int, t: int)
    requires zones(timezone) == Some(offset)
    requires 1_767_571_200 <= t + offset < 1_767_571_200 + 7 * 86_400
    ensures Inside(zones, Window(["Mon"], "08:00", "17:00", timezone), t)
            <==> 1_767_571_200 + 8 * 3600 <= t + offset < 1_767_571_200 + 17 * 3600
  {
    var w := Window(["Mon"], "08:00", "17:00", timezone);
    ClockTextParses(w.from);
    ClockTextParses(w.until);
    assert ContainsWeekday(w.weekdays, 1) by { assert WeekdayFromSpec(w.weekdays[0]) == 1; }
  }

  predicate InsideAny(zones: Zones, windows: seq<Window>, t: int) {
    exists i :: 0 <= i < |windows| && Inside(zones, windows[i], t)
  }

  method IsInAvailabilityWindow(zones: Zones, windows: seq<Window>, now: int) returns (inside: bool, windowEnd: int)
    ensures inside <==> InsideAny(zones, windows, now)
    ensures inside ==> exists i :: 0 <= i < |windows| && Inside(zones, windows[i], now)
                                   && windowEnd == End(zones, windows[i], now)
  {
    for i := 0 to |windows|
      invariant forall j :: 0 <= j < i ==> !Inside(zones, windows[j], now)
    {
      var w := windows[i];
      var zone := zones(w.timezone);
      if zone.None? {
        continue;
      }
      var day := LocalDay(now, zone.value);
      if !ContainsWeekday(w.weekdays, WeekdayOf(day)) {
        continue;
      }
      var from, until := ParseHHMM(w.from), ParseHHMM(w.until);
      if from.None? || until.None? {
        continue;
      }
      if At(day, from.value, zone.value) <= now < At(day, until.value, zone.value) {
        assert Inside(zones, w, now);
        return true, At(day, until.value, zone.value);
      }
    }
    return false, 0;
  }

  // ---- Opening instants ----

  /** s is the opening instant of w on local day d. The end of the window plays no part. */
  predicate OpensOn(zones: Zones, w: Window, d: int, s: int) {
    && zones(w.timezone).Some? && ParseHHMM(w.from).Some?
    && ContainsWeekday(w.weekdays, WeekdayOf(d))
    && s == At(d, ParseHHMM(w.from).value, zones(w.timezone).value)
  }

  /** No opening of w, on whatever day, lies after now and before limit. */
  ghost predicate NoOpeningBefore(zones: Zones, w: Window, now: int, limit: Option<int>) {
    forall d, s :: OpensOn(zones, w, d, s) && s > now ==> limit.Some? && limit.value <= s
  }

  /** Openings after now are on today's local date or later. */
  lemma OpeningsAreAhead(now: int, offset: int, d: int, minute: nat)
    requires minute < 24 * 60 && At(d, minute, offset) > now
    ensures d >= LocalDay(now, offset)
  {
  }

  /** Tomorrow or later is always ahead. */
  lemma TomorrowIsAhead(now: int, offset: int, d: int, minute: nat)
    requires d > LocalDay(now, offset)
    ensures At(d, minute, offset) > now
  {
  }

  /** Every weekday comes round within seven days. */
  lemma WeekdayComesRound(today: int, d: int) returns (e: int)
    requires d > today
    ensures today + 1 <= e <= today + 7 && e <= d && WeekdayOf(e) == WeekdayOf(d)
  {
    e := today + 1 + (d - today - 1) % 7;
    var q := (d - today - 1) / 7;
    assert d == e + 7 * q;
    assert (e + 4 + 7 * q) % 7 == (e + 4) % 7;
  }

  /** Eight days, today and the seven after it, decide: with no opening among them there is none at all. */
  lemma EightDaysSuffice(zones: Zones, w: Window, now: int, d: int, s: int) returns (e: int, r: int)
    requires OpensOn(zones, w, d, s) && s > now
    ensures LocalDay(now, zones(w.timezone).value) <= e <= LocalDay(now, zones(w.timezone).value) + 7
    ensures OpensOn(zones, w, e, r) && now < r <= s
  {
    var offset := zones(w.timezone).value;
    var today := LocalDay(now, offset);
    var minute := ParseHHMM(w.from).value;
    OpeningsAreAhead(now, offset, d, minute);
    e := d;
    if d > today {
      e := WeekdayComesRound(today, d);
      TomorrowIsAhead(now, offset, e, minute);
    }
    r := At(e, minute, offset);
  }

  /** The search of one window over daysAhead 0 to 7. */
  method NextOpeningOf(zones: Zones, w: Window, now: int) returns (r: Option<int>)
    ensures r.Some? ==> r.value > now && exists d :: OpensOn(zones, w, d, r.value)
    ensures NoOpeningBefore(zones, w, now, r)
  {
    var zone := zones(w.timezone);
    if zone.None? {
      return None;
    }
    var today := LocalDay(now, zone.value);
    for daysAhead := 0 to 8
      invariant forall e, s :: today <= e < today + daysAhead && OpensOn(zones, w, e, s) ==> s <= now
    {
      var candidate := today + daysAhead;
      var from := ParseHHMM(w.from);
      if ContainsWeekday(w.weekdays, WeekdayOf(candidate)) && from.Some? {
        var s := At(candidate, from.value, zone.value);
        assert OpensOn(zones, w, candidate, s);
        if s > now {
          forall d, u | OpensOn(zones, w, d, u) && u > now
            ensures s <= u
          {
            var e, v := EightDaysSuffice(zones, w, now, d, u);
            assert e >= candidate;
          }
          return Some(s);
        }
      }
    }
    forall d, u | OpensOn(zones, w, d, u)
      ensures u <= now
    {
      if u > now {
        var e, v := EightDaysSuffice(zones, w, now, d, u);
      }
    }
    return None;
  }

  method NextAvailabilityWindowStart(zones: Zones, windows: seq<Window>, now: int) returns (earliest: Option<int>)
    ensures earliest.Some? ==> earliest.value > now
    ensures earliest.Some? ==> exists i, d :: 0 <= i < |windows| && OpensOn(zones, windows[i], d, earliest.value)
    ensures forall i :: 0 <= i < |windows| ==> NoOpeningBefore(zones, windows[i], now, earliest)
  {
    earliest := None;
    for i := 0 to |windows|
      invariant earliest.Some? ==> earliest.value > now
      invariant earliest.Some? ==> exists j, d :: 0 <= j < i && OpensOn(zones, windows[j], d, earliest.value)
      invariant forall j :: 0 <= j < i ==> NoOpeningBefore(zones, windows[j], now, earliest)
    {
      var from := NextOpeningOf(zones, windows[i], now);
      if from.Some? && (earliest.None? || from.value < earliest.value) {
        earliest := from;
      }
    }
  }

  // ---- What the search means for windows the webhook admits ----

  ghost predicate AllAdmitted(zones: Zones, windows: seq<Window>) {
    forall i :: 0 <= i < |windows| ==> Admitted(zones, windows[i])
  }

  /** The answer of NextAvailabilityWindowStart, as its contract gives it. */
  ghost predicate IsNextOpening(zones: Zones, windows: seq<Window>, now: int, r: Option<int>) {
    && (r.Some? ==> r.value > now && exists i, d :: 0 <= i < |windows| && OpensOn(zones, windows[i], d, r.value))
    && forall i :: 0 <= i < |windows| ==> NoOpeningBefore(zones, windows[i], now, r)
  }

  /** Inside a window one is inside the whole rest of that occurrence. */
  lemma InsideUntilEnd(zones: Zones, w: Window, now: int, t: int)
    requires Inside(zones, w, now) && now <= t < End(zones, w, now)
    ensures Inside(zones, w, t) && End(zones, w, t) == End(zones, w, now)
  {
    assert LocalDay(t, zones(w.timezone).value) == LocalDay(now, zones(w.timezone).value);
  }

  /** Getting from outside to inside passes an opening. */
  lemma OpeningBetween(zones: Zones, w: Window, now: int, t: int) returns (s: int)
    requires now < t && !Inside(zones, w, now) && Inside(zones, w, t)
    ensures now < s <= t && OpensOn(zones, w, LocalDay(t, zones(w.timezone).value), s)
  {
    var offset := zones(w.timezone).value;
    s := At(LocalDay(t, offset), ParseHHMM(w.from).value, offset);
    assert s <= now ==> LocalDay(t, offset) == LocalDay(now, offset);
  }

  /** An admitted window is open at its opening instant. */
  lemma OpeningIsInside(zones: Zones, w: Window, d: int, s: int)
    requires ZonesOk(zones) && Admitted(zones, w) && OpensOn(zones, w, d, s)
    ensures Inside(zones, w, s)
  {
    assert LocalDay(s, zones(w.timezone).value) == d;
  }

  /**
   * From outside every window, the answer is the least later instant inside any window; there is none only if no such
   * instant exists.
   */
  lemma NextOpeningIsLeastInside(zones: Zones, windows: seq<Window>, now: int, r: Option<int>)
    requires ZonesOk(zones) && AllAdmitted(zones, windows) && !InsideAny(zones, windows, now)
    requires IsNextOpening(zones, windows, now, r)
    ensures r.Some? ==> r.value > now && InsideAny(zones, windows, r.value)
    ensures forall t :: t >= now && (r.Some? ==> t < r.value) ==> !InsideAny(zones, windows, t)
  {
    if r.Some? {
      var i, d :| 0 <= i < |windows| && OpensOn(zones, windows[i], d, r.value);
      OpeningIsInside(zones, windows[i], d, r.value);
    }
    forall t | t >= now && (r.Some? ==> t < r.value)
      ensures !InsideAny(zones, windows, t)
    {
      if InsideAny(zones, windows, t) {
        var i :| 0 <= i < |windows| && Inside(zones, windows[i], t);
        assert NoOpeningBefore(zones, windows[i], now, r);
        var s := OpeningBetween(zones, windows[i], now, t);
      }
    }
  }

  /** With at least one weekday in each admitted window, there is no next opening exactly when there are no windows. */
  lemma NoOpeningIffNoWindows(zones: Zones, windows: seq<Window>, now: int, r: Option<int>)
    requires ZonesOk(zones) && AllAdmitted(zones, windows) && IsNextOpening(zones, windows, now, r)
    requires forall i :: 0 <= i < |windows| ==> windows[i].weekdays != []
    ensures r.None? <==> windows == []
  {
    if windows != [] {
      var w := windows[0];
      var offset := zones(w.timezone).value;
      var d := DayWithWeekday(LocalDay(now, offset) + 1, WeekdayFromSpec(w.weekdays[0]));
      var s := At(d, ParseHHMM(w.from).value, offset);
      TomorrowIsAhead(now, offset, d, ParseHHMM(w.from).value);
      assert OpensOn(zones, w, d, s);
      assert NoOpeningBefore(zones, w, now, r);
    }
  }

  lemma DayWithWeekday(day: int, weekday: nat) returns (d: int)
    requires weekday < 7
    ensures d >= day && WeekdayOf(d) == weekday
  {
    d := day + (weekday - WeekdayOf(day)) % 7;
    var q := (weekday - WeekdayOf(day)) / 7;
    var p := (day + 4) / 7;
    assert d + 4 == 7 * (p - q) + weekday;
  }

  // ---- Requeueing ----

  /** The reconcilers' pause: at most five minutes, less when the next boundary is nearer on the clock read now. */
  function RequeueAfter(boundary: Option<int>, clock: int): (d: int)
    ensures 0 < d <= WINDOW_CHECK_INTERVAL
    ensures boundary.Some? && clock < boundary.value ==> clock + d <= boundary.value
    ensures d == 300 || (boundary.Some? && clock + d == boundary.value)
  {
    if boundary.Some? && 0 < boundary.value - clock < WINDOW_CHECK_INTERVAL then boundary.value - clock
    else WINDOW_CHECK_INTERVAL
  }

  /**
   * Reads the clock once to decide and once more, later, to compute the pause. The pause keeps the status it was
   * decided on whenever the second reading precedes the boundary; from outside all windows, exactly then, and from
   * inside one, exactly when from its end on the rest of the pause lies in other windows.
   */
  method Requeue(zones: Zones, windows: seq<Window>, now: int, later: int)
    returns (awake: bool, after: int, boundary: Option<int>)
    requires ZonesOk(zones) && AllAdmitted(zones, windows) && now <= later
    ensures awake <==> InsideAny(zones, windows, now)
    ensures 0 < after <= WINDOW_CHECK_INTERVAL
    ensures boundary.Some? ==> now < boundary.value
    ensures (boundary.Some? ==> later < boundary.value) ==>
              forall t :: now <= t < later + after ==> (InsideAny(zones, windows, t) <==> awake)
    ensures boundary.Some? && later >= boundary.value ==> after == WINDOW_CHECK_INTERVAL
    ensures awake && boundary.Some? ==>
              ((forall t :: now <= t < later + after ==> InsideAny(zones, windows, t))
               <==> forall t :: boundary.value <= t < later + after ==> InsideAny(zones, windows, t))
    ensures awake ==> boundary.Some?
    ensures !awake && (forall t :: now <= t < later + after ==> !InsideAny(zones, windows, t)) ==>
              boundary.None? || later < boundary.value
  {
    var windowEnd: int;
    awake, windowEnd := IsInAvailabilityWindow(zones, windows, now);
    if awake {
      boundary := Some(windowEnd);
      ghost var i :| 0 <= i < |windows| && Inside(zones, windows[i], now) && windowEnd == End(zones, windows[i], now);
      forall t | now <= t < windowEnd
        ensures InsideAny(zones, windows, t)
      {
        InsideUntilEnd(zones, windows[i], now, t);
      }
    } else {
      boundary := NextAvailabilityWindowStart(zones, windows, now);
      NextOpeningIsLeastInside(zones, windows, now, boundary);
      assert boundary.Some? ==> InsideAny(zones, windows, boundary.value);
    }
    after := RequeueAfter(boundary, later);
  }

  /** With one clock reading the boundary is always still ahead, so the pause never jumps over a change of status. */
  method RequeueAtOnce(zones: Zones, windows: seq<Window>, now: int) returns (awake: bool, after: int)
    requires ZonesOk(zones) && AllAdmitted(zones, windows)
    ensures awake <==> InsideAny(zones, windows, now)
    ensures 0 < after <= WINDOW_CHECK_INTERVAL
    ensures forall t :: now <= t < now + after ==> (InsideAny(zones, windows, t) <==> InsideAny(zones, windows, now))
  {
    var boundary;
    awake, after, boundary := Requeue(zones, windows, now, now);
  }
}
