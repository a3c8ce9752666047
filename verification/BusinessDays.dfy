/** The pinned working calendar of delivery/capacity.py: `_is_working_day` and `add_business_days`. */
module BusinessDays {
  import opened Prelude

  /** Days are proleptic Gregorian ordinals (day 1 is Monday 0001-01-01); a holiday that is not a date is None. */
  datatype Calendar = Calendar(weekdays: seq<int>, holidays: seq<Option<int>>)

  datatype CalendarError = NonPositiveAmount | LacksWorkingWeekdays | HolidayNotADate

  /** Instants count microseconds from the start of day 1. */
  const MICROSECONDS_PER_DAY := 86_400_000_000

  /** `now.date()`. */
  function DayOf(instant: int): int {
    instant / MICROSECONDS_PER_DAY + 1
  }

  /** A date field: absent, present but no date, or a day. */
  datatype DayField = Missing | NotADay | Day(day: int)

  /** `day.weekday()`: Monday is 0. */
  function Weekday(day: int): int {
    (day + 6) % 7
  }

  // ---- Days and weekdays -------------------------------------------------------------------------

  /** The instant at which a day begins. */
  function Midnight(day: int): int {
    (day - 1) * (24 * 60 * 60 * 1_000_000)
  }

  /** An instant belongs to the one day whose midnight has passed and whose successor's has not. */
  lemma DayOfIff(instant: int, day: int)
    ensures DayOf(instant) == day <==> Midnight(day) <= instant < Midnight(day + 1)
  {
    var past := instant - Midnight(DayOf(instant));
    assert instant == MICROSECONDS_PER_DAY * (instant / MICROSECONDS_PER_DAY) + instant % MICROSECONDS_PER_DAY;
    if DayOf(instant) < day {
      assert Midnight(DayOf(instant) + 1) <= Midnight(day);
    } else if DayOf(instant) > day {
      assert Midnight(day + 1) <= Midnight(DayOf(instant));
    }
  }

  /** Day 1 is a Monday, and weekdays follow one another in a cycle of seven. */
  lemma WeekdaysCycle(day: int)
    ensures Weekday(1) == 0
    ensures Weekday(day + 1) == if Weekday(day) == 6 then 0 else Weekday(day) + 1
  {
  }

  /** Two days share a weekday exactly when whole weeks lie between them. */
  lemma SameWeekdayIff(a: int, b: int)
    ensures Weekday(a) == Weekday(b) <==> exists weeks: int :: b - a == 7 * weeks
  {
    if Weekday(a) == Weekday(b) {
      var weeks := (b + 6) / 7 - (a + 6) / 7;
      assert b - a == 7 * weeks;
    }
    if weeks: int :| b - a == 7 * weeks {
      assert b + 6 == 7 * ((a + 6) / 7 + weeks) + Weekday(a);
    }
  }


  predicate WeekdaysOk(weekdays: seq<int>) {
    && weekdays != []
    && (forall w <- weekdays :: 0 <= w <= 6)
    && (forall i, j :: 0 <= i < j < |weekdays| ==> weekdays[i] != weekdays[j])
  }

  predicate ValidCalendar(cal: Calendar) {
    WeekdaysOk(cal.weekdays) && None !in cal.holidays
  }

  ghost function Holidays(cal: Calendar): set<int> {
    set h | h in cal.holidays && h.Some? :: h.value
  }

  predicate Working(cal: Calendar, day: int) {
    Weekday(day) in cal.weekdays && Some(day) !in cal.holidays
  }

  /** `_is_working_day`: a malformed calendar is an error, never a non-working day. */
  function IsWorkingDay(cal: Calendar, day: int): Result<bool, CalendarError> {
    if !WeekdaysOk(cal.weekdays) then Err(LacksWorkingWeekdays)
    else if None in cal.holidays then Err(HolidayNotADate)
    else Ok(Working(cal, day))
  }

  /** The number of working days in (start, end]. */
  ghost function Count(cal: Calendar, start: int, end: int): nat
    decreases end - start
  {
    if end <= start then 0
    else Count(cal, start, end - 1) + if Working(cal, end) then 1 else 0
  }

  ghost function HolidaysIn(cal: Calendar, start: int, end: int): set<int> {
    set h | h in Holidays(cal) && start < h <= end
  }

  lemma {:induction false} CountSplit(cal: Calendar, a: int, b: int, c: int)
    requires a <= b <= c
    ensures Count(cal, a, c) == Count(cal, a, b) + Count(cal, b, c)
    decreases c - b
  {
    if b < c {
      CountSplit(cal, a, b, c - 1);
    }
  }

  /** Every working weekday recurs within any seven consecutive days. */
  lemma WeekHasWeekday(cal: Calendar, day: int) returns (found: int)
    requires WeekdaysOk(cal.weekdays)
    ensures day < found <= day + 7 && Weekday(found) in cal.weekdays
  {
    var w, today := cal.weekdays[0], Weekday(day);
    found := day + if w > today then w - today else w - today + 7;
    assert w in cal.weekdays;
    var week := (day + 6) / 7;
    assert found + 6 == 7 * (if w > today then week else week + 1) + w;
  }

  /** k weeks hold at least k working days, less one for each distinct holiday they contain. */
  lemma {:induction false} WeeksHoldWorkingDays(cal: Calendar, start: int, k: nat)
    requires ValidCalendar(cal)
    ensures Count(cal, start, start + 7 * k) + |HolidaysIn(cal, start, start + 7 * k)| >= k
  {
    if k > 0 {
      var mid, end := start + 7 * (k - 1), start + 7 * k;
      WeeksHoldWorkingDays(cal, start, k - 1);
      CountSplit(cal, start, mid, end);
      var found := WeekHasWeekday(cal, mid);
      var before, after := HolidaysIn(cal, start, mid), HolidaysIn(cal, start, end);
      SubsetSize(before, after);
      if Working(cal, found) {
        CountSplit(cal, mid, found, end);
      } else {
        assert Some(found) in cal.holidays;
        assert found in after && found !in before;
        SubsetSize(before + {found}, after);
      }
    }
  }

  /** By start + 7 * (amount + number of holidays) at least `amount` working days have passed. */
  lemma EnoughByBound(cal: Calendar, start: int, amount: nat, day: int)
    requires ValidCalendar(cal)
    requires day >= start + 7 * (amount + |Holidays(cal)|)
    ensures Count(cal, start, day) >= amount
  {
    var k := amount + |Holidays(cal)|;
    WeeksHoldWorkingDays(cal, start, k);
    SubsetSize(HolidaysIn(cal, start, start + 7 * k), Holidays(cal));
    CountSplit(cal, start, start + 7 * k, day);
  }

  /** `day` is the `amount`-th working day after `start`. */
  ghost predicate IsDue(cal: Calendar, start: int, amount: int, day: int) {
    start < day && Working(cal, day) && Count(cal, start, day) == amount
  }

  lemma DueUnique(cal: Calendar, start: int, amount: int, d: int, e: int)
    requires IsDue(cal, start, amount, d) && IsDue(cal, start, amount, e)
    ensures d == e
  {
    if d < e {
      CountSplit(cal, start, d, e - 1);
    } else if e < d {
      CountSplit(cal, start, e, d - 1);
    }
  }

  /** `add_business_days`. The loop ends for every calendar that is well formed, whatever its holidays. */
  method AddBusinessDays(start: int, amount: int, cal: Calendar) returns (r: Result<int, CalendarError>)
    ensures r.Ok? <==> amount > 0 && ValidCalendar(cal)
    ensures amount <= 0 ==> r == Err(NonPositiveAmount)
    ensures amount > 0 && !WeekdaysOk(cal.weekdays) ==> r == Err(LacksWorkingWeekdays)
    ensures amount > 0 && WeekdaysOk(cal.weekdays) && None in cal.holidays ==> r == Err(HolidayNotADate)
    ensures r.Ok? ==> IsDue(cal, start, amount, r.value)
    ensures r.Ok? ==> r.value <= start + 7 * (amount + |Holidays(cal)|)
  {
    if amount <= 0 {
      return Err(NonPositiveAmount);
    }
    var current, remaining := start, amount;
    while remaining != 0
      invariant start <= current && 0 <= remaining
      invariant start < current ==> ValidCalendar(cal)
      invariant remaining == amount - Count(cal, start, current)
      invariant remaining == 0 ==> start < current && Working(cal, current)
      invariant ValidCalendar(cal) ==> current <= start + 7 * (amount + |Holidays(cal)|)
      decreases start + 7 * (amount + |Holidays(cal)|) - current
    {
      var working := IsWorkingDay(cal, current + 1);
      if working.Err? {
        return Err(working.error);
      }
      if current >= start + 7 * (amount + |Holidays(cal)|) {
        EnoughByBound(cal, start, amount, current);
      }
      current := current + 1;
      if working.value {
        remaining := remaining - 1;
      }
    }
    return Ok(current);
  }

  /** The day `add_business_days` returns, as a value that other specifications can name. */
  ghost function DueDay(cal: Calendar, start: int, amount: int): (d: int)
    requires ValidCalendar(cal) && amount > 0
    ensures IsDue(cal, start, amount, d)
  {
    DueExists(cal, start, amount, start + 7 * (amount + |Holidays(cal)|));
    var d :| IsDue(cal, start, amount, d);
    d
  }

  lemma {:induction false} DueExists(cal: Calendar, start: int, amount: int, day: int)
    requires ValidCalendar(cal) && amount > 0
    requires start <= day && (Count(cal, start, day) >= amount || day >= start + 7 * (amount + |Holidays(cal)|))
    ensures exists d :: IsDue(cal, start, amount, d)
    decreases day - start
  {
    if Count(cal, start, day) < amount {
      EnoughByBound(cal, start, amount, day);
    }
    if !IsDue(cal, start, amount, day) {
      DueExists(cal, start, amount, day - 1);
    }
  }

  /** The due day is the least day by which `amount` working days have passed. */
  lemma DueIsLeast(cal: Calendar, start: int, amount: int, day: int)
    requires ValidCalendar(cal) && amount > 0
    ensures DueDay(cal, start, amount) <= day <==> Count(cal, start, day) >= amount
  {
    var d := DueDay(cal, start, amount);
    if d <= day {
      CountSplit(cal, start, d, day);
    } else if start <= day {
      CountSplit(cal, start, day, d - 1);
    }
  }

  /** Adding a business days and then b more is adding a + b. */
  lemma DueCompose(cal: Calendar, start: int, a: int, b: int)
    requires ValidCalendar(cal) && a > 0 && b > 0
    ensures DueDay(cal, DueDay(cal, start, a), b) == DueDay(cal, start, a + b)
  {
    var first := DueDay(cal, start, a);
    var second := DueDay(cal, first, b);
    CountSplit(cal, start, first, second);
    DueUnique(cal, start, a + b, second, DueDay(cal, start, a + b));
  }

  /** Starting later never finishes earlier. */
  lemma DueMonotone(cal: Calendar, start: int, later: int, amount: int)
    requires ValidCalendar(cal) && amount > 0 && start <= later
    ensures DueDay(cal, start, amount) <= DueDay(cal, later, amount)
  {
    var d := DueDay(cal, later, amount);
    CountSplit(cal, start, later, d);
    DueIsLeast(cal, start, amount, d);
  }

  /** Adding holidays never makes the due day earlier. */
  lemma HolidaysOnlyDelay(cal: Calendar, more: Calendar, start: int, amount: int)
    requires ValidCalendar(cal) && ValidCalendar(more) && amount > 0
    requires more.weekdays == cal.weekdays && Holidays(cal) <= Holidays(more)
    ensures DueDay(cal, start, amount) <= DueDay(more, start, amount)
  {
    var d := DueDay(more, start, amount);
    CountShrinks(cal, more, start, d);
    DueIsLeast(cal, start, amount, d);
  }

  lemma {:induction false} CountShrinks(cal: Calendar, more: Calendar, start: int, end: int)
    requires more.weekdays == cal.weekdays && Holidays(cal) <= Holidays(more)
    ensures Count(more, start, end) <= Count(cal, start, end)
    decreases end - start
  {
    if start < end {
      CountShrinks(cal, more, start, end - 1);
      if Some(end) in cal.holidays {
        assert end in Holidays(cal);
        assert end in Holidays(more);
      }
    }
  }

  // ---- What is counted ---------------------------------------------------------------------------

  /** The days after `start`, up to `end`, whose weekday is a working one and which are no holidays. */
  ghost function WorkingDays(cal: Calendar, start: int, end: int): set<int> {
    set d | start < d <= end && (exists i :: 0 <= i < |cal.weekdays| && cal.weekdays[i] == Weekday(d))
            && d !in Holidays(cal)
  }

  lemma WorkingIff(cal: Calendar, day: int)
    ensures Working(cal, day) <==>
            (exists i :: 0 <= i < |cal.weekdays| && cal.weekdays[i] == Weekday(day)) && day !in Holidays(cal)
  {
    if Some(day) in cal.holidays {
      assert day in Holidays(cal);
    }
  }

  lemma {:induction false} CountIs(cal: Calendar, start: int, end: int)
    ensures Count(cal, start, end) == |WorkingDays(cal, start, end)|
    decreases end - start
  {
    if start < end {
      CountIs(cal, start, end - 1);
      WorkingIff(cal, end);
      assert WorkingDays(cal, start, end) ==
             WorkingDays(cal, start, end - 1) + if Working(cal, end) then {end} else {};
    } else {
      assert WorkingDays(cal, start, end) == {};
    }
  }

  /** The due day is itself a working day and no holiday, and with it just so many have passed since the start. */
  lemma DueIff(cal: Calendar, start: int, amount: int, day: int)
    requires amount > 0
    ensures IsDue(cal, start, amount, day) <==>
            day in WorkingDays(cal, start, day) && |WorkingDays(cal, start, day)| == amount
  {
    CountIs(cal, start, day);
    WorkingIff(cal, day);
  }

  /** A calendar can be used when it names some weekdays, from Monday to Sunday and none twice, and its holidays are
      dates. */
  lemma ValidIff(cal: Calendar)
    ensures ValidCalendar(cal) <==>
            && |cal.weekdays| >= 1 && |WeekdaySet(cal)| == |cal.weekdays| && WeekdaySet(cal) <= {0, 1, 2, 3, 4, 5, 6}
            && forall h <- cal.holidays :: h.Some?
  {
    DistinctIff(cal.weekdays);
    assert forall w <- cal.weekdays :: w in WeekdaySet(cal);
  }

  ghost function WeekdaySet(cal: Calendar): set<int> {
    Members(cal.weekdays)
  }

  ghost function Members(s: seq<int>): set<int> {
    set w | w in s
  }

  lemma {:induction false} DistinctIff(s: seq<int>)
    ensures |Members(s)| <= |s|
    ensures |Members(s)| == |s| <==> forall i, j :: 0 <= i < j < |s| ==> s[i] != s[j]
  {
    if s != [] {
      var init, last := Init(s), |s| - 1;
      DistinctIff(init);
      assert s == init + [s[last]];
      assert Members(s) == Members(init) + {s[last]};
      assert forall i :: 0 <= i < last ==> s[i] == init[i];
      if s[last] in init {
        var i :| 0 <= i < last && init[i] == s[last];
        assert s[i] == s[last];
      }
    }
  }

  // ---- The working week --------------------------------------------------------------------------

  /** Monday to Friday, and no holidays. */
  ghost predicate WorkingWeek(cal: Calendar) {
    ValidCalendar(cal) && (forall w :: w in cal.weekdays <==> 0 <= w <= 4) && cal.holidays == []
  }

  /** The next working day: tomorrow, or Monday when tomorrow is Saturday. */
  lemma NextInWorkingWeek(cal: Calendar, day: int)
    requires WorkingWeek(cal) && Weekday(day) <= 4
    ensures Weekday(day) < 4 ==> DueDay(cal, day, 1) == day + 1 && Weekday(day + 1) == Weekday(day) + 1
    ensures Weekday(day) == 4 ==> DueDay(cal, day, 1) == day + 3 && Weekday(day + 3) == 0
  {
    assert Count(cal, day, day) == 0;
    if Weekday(day) < 4 {
      assert IsDue(cal, day, 1, day + 1);
      DueUnique(cal, day, 1, day + 1, DueDay(cal, day, 1));
    } else {
      assert !Working(cal, day + 1) && !Working(cal, day + 2);
      assert Count(cal, day, day + 1) == 0;
      assert Count(cal, day, day + 2) == 0;
      assert IsDue(cal, day, 1, day + 3);
      DueUnique(cal, day, 1, day + 3, DueDay(cal, day, 1));
    }
  }

  /** Business days in closed form: two days more for each weekend passed, whatever working day one starts on. */
  lemma {:induction false} DueInWorkingWeek(cal: Calendar, day: int, amount: nat)
    requires WorkingWeek(cal) && Weekday(day) <= 4 && amount > 0
    ensures DueDay(cal, day, amount) == day + amount + 2 * ((Weekday(day) + amount) / 5)
    ensures Weekday(DueDay(cal, day, amount)) == (Weekday(day) + amount) % 5
    decreases amount
  {
    if amount == 1 {
      NextInWorkingWeek(cal, day);
    } else {
      DueInWorkingWeek(cal, day, amount - 1);
      NextInWorkingWeek(cal, DueDay(cal, day, amount - 1));
      DueCompose(cal, day, amount - 1, 1);
    }
  }

  lemma NoWeekendWork(cal: Calendar, friday: int)
    requires WorkingWeek(cal) && Weekday(friday) == 4
    ensures !Working(cal, friday + 1) && !Working(cal, friday + 2)
    ensures Count(cal, friday, friday) == Count(cal, friday, friday + 1) == Count(cal, friday, friday + 2) == 0
  {
    assert Weekday(friday + 1) == 5 && Weekday(friday + 2) == 6;
    assert Count(cal, friday, friday + 1) == Count(cal, friday, friday);
    assert Count(cal, friday, friday + 2) == Count(cal, friday, friday + 1);
  }

  /** On a weekend one starts as on the Friday before. */
  lemma DueOverWeekend(cal: Calendar, friday: int, day: int, amount: nat)
    requires WorkingWeek(cal) && Weekday(friday) == 4 && friday <= day <= friday + 2 && amount > 0
    ensures DueDay(cal, day, amount) == DueDay(cal, friday, amount)
  {
    var due := DueDay(cal, friday, amount);
    NoWeekendWork(cal, friday);
    assert due != friday + 1 && due != friday + 2;
    CountSplit(cal, friday, day, due);
    DueUnique(cal, day, amount, due, DueDay(cal, day, amount));
  }
}
