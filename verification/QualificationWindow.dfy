/** commercial/outbound/first_touch_v3.py: the rolling three-year qualification window. */
module QualificationWindow {
  import opened Prelude

  // ---- Gregorian dates ---------------------------------------------------------------------------

  datatype Date = Date(year: int, month: int, day: int)

  predicate Leap(year: int) {
    year % 4 == 0 && (year % 100 != 0 || year % 400 == 0)
  }

  function DaysInMonth(year: int, month: int): int {
    if month == 2 then if Leap(year) then 29 else 28
    else if month in {4, 6, 9, 11} then 30
    else 31
  }

  predicate Valid(d: Date) {
    d.year >= 1 && 1 <= d.month <= 12 && 1 <= d.day <= DaysInMonth(d.year, d.month)
  }

  predicate Before(a: Date, b: Date) {
    a.year < b.year || (a.year == b.year && (a.month < b.month || (a.month == b.month && a.day < b.day)))
  }

  function DaysBeforeMonth(year: int, month: int): int
    decreases month
  {
    if month <= 1 then 0 else DaysBeforeMonth(year, month - 1) + DaysInMonth(year, month - 1)
  }

  function DaysBeforeYear(year: int): int {
    (year - 1) * 365 + (year - 1) / 4 - (year - 1) / 100 + (year - 1) / 400
  }

  /** The day number of a date; day 1 is 0001-01-01. */
  function Ordinal(d: Date): int {
    DaysBeforeYear(d.year) + DaysBeforeMonth(d.year, d.month) + d.day
  }

  lemma CenturiesNest(year: int)
    ensures year % 100 == 0 ==> year % 4 == 0
    ensures year % 400 == 0 ==> year % 100 == 0
  {
    var century := year / 100;
    assert year % 100 == 0 ==> year == 4 * (25 * century);
  }

  lemma YearLength(year: int)
    ensures DaysBeforeYear(year + 1) == DaysBeforeYear(year) + if Leap(year) then 366 else 365
  {
    CenturiesNest(year);
    FourthStep(year);
    CenturyStep(year);
    FourCenturiesStep(year);
    assert year + 1 - 1 == year;
  }

  lemma FourthStep(year: int)
    ensures year / 4 == (year - 1) / 4 + if year % 4 == 0 then 1 else 0
  {
  }

  lemma CenturyStep(year: int)
    ensures year / 100 == (year - 1) / 100 + if year % 100 == 0 then 1 else 0
  {
  }

  lemma FourCenturiesStep(year: int)
    ensures year / 400 == (year - 1) / 400 + if year % 400 == 0 then 1 else 0
  {
  }

  lemma {:induction false} MonthsFit(year: int, month: int)
    requires 1 <= month <= 13
    ensures DaysBeforeMonth(year, month) <= DaysBeforeMonth(year, 13)
    ensures DaysBeforeMonth(year, 13) == if Leap(year) then 366 else 365
    decreases 13 - month
  {
    if month == 13 {
      YearOfMonths(year);
    } else {
      MonthsFit(year, month + 1);
    }
  }

  lemma YearOfMonths(year: int)
    ensures DaysBeforeMonth(year, 3) == if Leap(year) then 60 else 59
    ensures DaysBeforeMonth(year, 13) == DaysBeforeMonth(year, 3) + 306
  {
    assert DaysBeforeMonth(year, 7) == DaysBeforeMonth(year, 3) + 122 by {
      assert DaysBeforeMonth(year, 5) == DaysBeforeMonth(year, 3) + 61;
    }
    assert DaysBeforeMonth(year, 11) == DaysBeforeMonth(year, 7) + 123 by {
      assert DaysBeforeMonth(year, 9) == DaysBeforeMonth(year, 7) + 62;
    }
  }

  lemma {:induction false} YearsAhead(a: int, b: int)
    requires a < b
    ensures DaysBeforeYear(a + 1) <= DaysBeforeYear(b)
    decreases b - a
  {
    if a + 1 < b {
      YearsAhead(a, b - 1);
      YearLength(b - 1);
    }
  }

  lemma {:induction false} MonthsAhead(year: int, m: int, n: int)
    requires 1 <= m < n
    ensures DaysBeforeMonth(year, m) + DaysInMonth(year, m) <= DaysBeforeMonth(year, n)
    decreases n - m
  {
    if m + 1 < n {
      MonthsAhead(year, m, n - 1);
    }
  }

  /** Calendar order is day-number order. */
  lemma OrderIsOrdinal(a: Date, b: Date)
    requires Valid(a) && Valid(b)
    ensures Before(a, b) <==> Ordinal(a) < Ordinal(b)
  {
    if Before(a, b) {
      BeforeIsLess(a, b);
    } else if Before(b, a) {
      BeforeIsLess(b, a);
    }
  }

  lemma BeforeIsLess(a: Date, b: Date)
    requires Valid(a) && Valid(b) && Before(a, b)
    ensures Ordinal(a) < Ordinal(b)
  {
    if a.year < b.year {
      YearsAhead(a.year, b.year);
      YearLength(a.year);
      MonthsAhead(a.year, a.month, 13);
      MonthsFit(a.year, 13);
      MonthsAhead(b.year, 1, b.month + 1);
      assert DaysBeforeMonth(b.year, b.month) >= 0 by {
        if b.month > 1 {
          MonthsAhead(b.year, 1, b.month);
        }
      }
    } else if a.month < b.month {
      MonthsAhead(a.year, a.month, b.month);
    }
  }

  /** The Gregorian months. */
  lemma MonthLengths(year: int, month: int)
    requires 1 <= month <= 12
    ensures DaysInMonth(year, month) ==
            [31, if Leap(year) then 29 else 28, 31, 30, 31, 30, 31, 31, 30, 31, 30, 31][month - 1]
  {
  }

  /** Every fourth year is a leap year, but of the centuries only every fourth. */
  lemma LeapYears(fourth: int)
    ensures Leap(4 * fourth) <==> fourth % 25 != 0 || fourth % 100 == 0
    ensures !Leap(4 * fourth + 1) && !Leap(4 * fourth + 2) && !Leap(4 * fourth + 3)
  {
    var century, rest := fourth / 25, fourth % 25;
    assert 4 * fourth == 100 * century + 4 * rest && 4 * fourth % 100 == 4 * rest;
    var cycle, part := fourth / 100, fourth % 100;
    assert 4 * fourth == 400 * cycle + 4 * part && 4 * fourth % 400 == 4 * part;
  }

  /** The day after. */
  function Tomorrow(d: Date): Date {
    if d.day < DaysInMonth(d.year, d.month) then d.(day := d.day + 1)
    else if d.month < 12 then Date(d.year, d.month + 1, 1)
    else Date(d.year + 1, 1, 1)
  }

  /** Day numbers start at 0001-01-01 and count the days, one for each. */
  lemma FirstDay()
    ensures Ordinal(Date(1, 1, 1)) == 1
  {
  }

  lemma TomorrowIsValid(d: Date)
    requires Valid(d)
    ensures Valid(Tomorrow(d))
  {
  }

  lemma OrdinalCountsDays(d: Date)
    requires Valid(d)
    ensures Ordinal(Tomorrow(d)) == Ordinal(d) + 1
  {
    if d.day < DaysInMonth(d.year, d.month) {
      DayTurns(d);
    } else if d.month < 12 {
      MonthTurns(d);
    } else {
      YearTurns(d);
    }
  }

  lemma DayTurns(d: Date)
    requires d.day < DaysInMonth(d.year, d.month)
    ensures Ordinal(Tomorrow(d)) == Ordinal(d) + 1
  {
  }

  lemma MonthTurns(d: Date)
    requires 1 <= d.month < 12 && d.day == DaysInMonth(d.year, d.month)
    ensures Ordinal(Tomorrow(d)) == Ordinal(d) + 1
  {
    assert DaysBeforeMonth(d.year, d.month + 1) == DaysBeforeMonth(d.year, d.month) + d.day;
  }

  lemma YearTurns(d: Date)
    requires d.month == 12 && d.day == DaysInMonth(d.year, d.month)
    ensures Ordinal(Tomorrow(d)) == Ordinal(d) + 1
  {
    YearLength(d.year);
    DecemberEnds(d.year);
    assert DaysBeforeMonth(d.year + 1, 1) == 0;
  }

  lemma DecemberEnds(year: int)
    ensures DaysBeforeMonth(year, 12) + 31 == DaysBeforeMonth(year, 13) == if Leap(year) then 366 else 365
  {
    YearOfMonths(year);
  }

  // ---- Adding years ------------------------------------------------------------------------------

  /** The same day of the year if it exists there, otherwise the first of March: only 29 February can be missing. */
  function YearsLater(d: Date, years: int): Date {
    var same := Date(d.year + years, d.month, d.day);
    if Valid(same) then same else Date(d.year + years, 3, 1)
  }

  /** `add_years_forward`: the overflow of a missing day is carried into the next month, as Go's AddDate does. */
  method AddYearsForward(d: Date, years: int) returns (r: Date)
    requires Valid(d) && d.year + years >= 1
    ensures r == YearsLater(d, years) && Valid(r)
  {
    var year := d.year + years;
    var last := DaysInMonth(year, d.month);
    if d.day <= last {
      return Date(year, d.month, d.day);
    }
    var overflow := d.day - last;
    var month := d.month + 1;
    if month > 12 {
      month, year := 1, year + 1;
    }
    return Date(year, month, overflow);
  }

  lemma YearsLaterMonotone(a: Date, b: Date, years: int)
    requires Valid(a) && Valid(b) && a.year + years >= 1 && b.year + years >= 1 && !Before(b, a)
    ensures !Before(YearsLater(b, years), YearsLater(a, years))
  {
  }

  const QUALIFICATION_WINDOW_YEARS := 3

  function QualifiedUntil(contractDate: Date): Date {
    YearsLater(contractDate, QUALIFICATION_WINDOW_YEARS)
  }

  lemma LeapsApart(year: int, k: int)
    requires Leap(year) && 1 <= k <= 3
    ensures !Leap(year + k)
  {
  }

  /** Three years from day one of a month: 1095 days, and one more for the single leap day they may contain. */
  lemma ThreeYears(year: int, month: int)
    requires 1 <= month <= 12
    ensures var start := DaysBeforeYear(year) + DaysBeforeMonth(year, month);
            var end := DaysBeforeYear(year + 3) + DaysBeforeMonth(year + 3, month);
            var leapDay := if month > 2 then Leap(year + 1) || Leap(year + 2) || Leap(year + 3)
                           else Leap(year) || Leap(year + 1) || Leap(year + 2);
            end - start == 1095 + if leapDay then 1 else 0
  {
    YearLength(year);
    YearLength(year + 1);
    YearLength(year + 2);
    MonthShift(year, month);
    MonthShift(year + 3, month);
    if Leap(year) {
      LeapsApart(year, 1);
      LeapsApart(year, 2);
      LeapsApart(year, 3);
    } else if Leap(year + 1) {
      LeapsApart(year + 1, 1);
      LeapsApart(year + 1, 2);
    } else if Leap(year + 2) {
      LeapsApart(year + 2, 1);
    }
  }

  /** The window is 1095 or 1096 days long, always. */
  lemma WindowLength(d: Date)
    requires Valid(d)
    ensures Valid(QualifiedUntil(d))
    ensures Ordinal(QualifiedUntil(d)) - Ordinal(d) in {1095, 1096}
  {
    ThreeYears(d.year, d.month);
    if d.month == 2 && d.day == 29 {
      LeapsApart(d.year, 3);
      assert DaysBeforeMonth(d.year + 3, 3) == DaysBeforeMonth(d.year + 3, 2) + 28;
    }
  }

  /** After February a leap year is one day ahead of a common one. */
  lemma {:induction false} MonthShift(year: int, month: int)
    requires 1 <= month <= 12
    ensures DaysBeforeMonth(year, month) == DaysBeforeMonth(1, month) + if month > 2 && Leap(year) then 1 else 0
    decreases month
  {
    if month > 1 {
      MonthShift(year, month - 1);
    }
  }

  predicate WithinWindow(contractDate: Date, today: Date) {
    Before(today, QualifiedUntil(contractDate))
  }

  // ---- One company -------------------------------------------------------------------------------

  datatype State = Qualified | Expired | Revoked | UnknownState

  datatype Reason = Missing | RoleInvalid | IsRevoked | EvidenceDrift | WindowInvalid | IsExpired | IsQualified

  /** `supplierRole`: the declared party role is a supplier alias; `evidenceBound`: the declared evidence hash is
      present and is the hash of the material fields; dates that do not parse are None. */
  datatype Root = Root(
    supplierRole: bool, deactivated: bool, evidenceBound: bool, contractDate: Option<Date>, dateFieldKnown: bool,
    countedDates: seq<Option<Date>>, count: Option<int>, qualifiedUntil: Option<Date>)

  predicate DatesValid(r: Root) {
    && (r.contractDate.Some? ==> Valid(r.contractDate.value))
    && (forall d <- r.countedDates :: d.Some? ==> Valid(d.value))
  }

  /** `latest` is the newest of the counted acts. */
  predicate Newest(dates: seq<Option<Date>>, latest: Date) {
    Some(latest) in dates && forall d <- dates :: d.Some? && !Before(latest, d.value)
  }

  /** The evidence checks: bound hash, readable date from a known field, and a date that is the newest of the acts
      counted. */
  predicate EvidenceSound(r: Root) {
    && r.evidenceBound && r.contractDate.Some? && r.dateFieldKnown
    && (r.countedDates != [] ==>
          Newest(r.countedDates, r.contractDate.value) && (r.count.Some? ==> r.count.value == |r.countedDates|))
  }

  predicate WindowDeclared(r: Root)
    requires r.contractDate.Some?
  {
    r.qualifiedUntil == Some(QualifiedUntil(r.contractDate.value))
  }

  /** What is known of a company on a day, and why. */
  function Judgement(root: Option<Root>, today: Date): (State, Reason) {
    if root.None? then (UnknownState, Missing)
    else
      var r := root.value;
      if !r.supplierRole then (UnknownState, RoleInvalid)
      else if r.deactivated then (Revoked, IsRevoked)
      else if !EvidenceSound(r) then (UnknownState, EvidenceDrift)
      else if !WindowDeclared(r) then (UnknownState, WindowInvalid)
      else if WithinWindow(r.contractDate.value, today) then (Qualified, IsQualified)
      else (Expired, IsExpired)
  }

  datatype Record = Record(present: bool, state: State, reason: Reason, contractDate: Option<Date>,
    qualifiedUntil: Option<Date>)

  /** The newest readable date of the acts counted, or None as soon as one is unreadable. */
  method NewestAct(dates: seq<Option<Date>>) returns (latest: Option<Date>)
    requires dates != [] && forall d <- dates :: d.Some? ==> Valid(d.value)
    ensures latest.None? <==> None in dates
    ensures latest.Some? ==> Newest(dates, latest.value)
  {
    latest := dates[0];
    for i := 0 to |dates|
      invariant forall j :: 0 <= j < i ==> dates[j].Some?
      invariant latest in dates && (i == 0 ==> latest == dates[0])
      invariant i > 0 ==> latest.Some? && forall j :: 0 <= j < i ==> !Before(latest.value, dates[j].value)
    {
      if dates[i].None? {
        return None;
      }
      if Before(latest.value, dates[i].value) {
        latest := dates[i];
      }
    }
  }

  /** `evaluate_root_qualification`: the record is filled step by step and returned at the first check that fails. */
  method EvaluateRootQualification(root: Option<Root>, today: Date) returns (out: Record)
    requires root.Some? ==> DatesValid(root.value)
    ensures (out.state, out.reason) == Judgement(root, today)
    ensures out.present == root.Some?
    ensures out.state in {Qualified, Expired} <==> out.qualifiedUntil.Some?
    ensures out.qualifiedUntil.Some? ==>
              out.contractDate == root.value.contractDate
                  && out.qualifiedUntil.value == QualifiedUntil(out.contractDate.value)
  {
    out := Record(false, UnknownState, Missing, None, None);
    if root.None? {
      return;
    }
    var r := root.value;
    out := out.(present := true);
    if !r.supplierRole {
      return out.(reason := RoleInvalid);
    }
    if r.deactivated {
      return out.(state := Revoked, reason := IsRevoked);
    }
    out := out.(reason := EvidenceDrift);
    if !r.evidenceBound || r.contractDate.None? {
      return;
    }
    var contractDate := r.contractDate.value;
    out := out.(contractDate := Some(contractDate));
    if !r.dateFieldKnown {
      return;
    }
    if r.countedDates != [] {
      var newest := NewestAct(r.countedDates);
      if newest.None? {
        return;
      }
      if newest.value != contractDate {
        NewestIsUnique(r.countedDates, newest.value, contractDate);
        return;
      }
      if r.count.Some? && r.count.value != |r.countedDates| {
        return;
      }
    }
    var expected := AddYearsForward(contractDate, QUALIFICATION_WINDOW_YEARS);
    if r.qualifiedUntil != Some(expected) {
      return out.(reason := WindowInvalid);
    }
    out := out.(qualifiedUntil := Some(expected));
    if !Before(today, expected) {
      return out.(state := Expired, reason := IsExpired);
    }
    return out.(state := Qualified, reason := IsQualified);
  }

  lemma NewestIsUnique(dates: seq<Option<Date>>, a: Date, b: Date)
    requires Newest(dates, a) && a != b
    ensures !Newest(dates, b)
  {
  }

  /** The evidence of a company: bound to its hash, with a readable date from a known field; and when acts were counted,
      all are readable, as many as declared, and the date is that of one that no other is newer than. */
  ghost predicate Evidenced(r: Root) {
    && r.evidenceBound && r.dateFieldKnown && r.contractDate.Some?
    && (r.countedDates == [] ||
        (&& (exists i :: 0 <= i < |r.countedDates| && r.countedDates[i] == r.contractDate)
         && (forall i :: 0 <= i < |r.countedDates| ==>
               r.countedDates[i].Some? && !Before(r.contractDate.value, r.countedDates[i].value))
         && (r.count.None? || r.count.value == |r.countedDates|)))
  }

  /** Which state a company is in, and for which reason, on any day. */
  lemma JudgementIs(root: Option<Root>, today: Date)
    ensures root.None? <==> Judgement(root, today) == (UnknownState, Missing)
    ensures root.Some? ==>
              var r, j := root.value, Judgement(root, today);
              && (j == (UnknownState, RoleInvalid) <==> !r.supplierRole)
              && (j == (Revoked, IsRevoked) <==> r.supplierRole && r.deactivated)
              && (j == (UnknownState, EvidenceDrift) <==> r.supplierRole && !r.deactivated && !Evidenced(r))
              && (r.supplierRole && !r.deactivated && Evidenced(r) ==>
                    var until := YearsLater(r.contractDate.value, 3);
                    && (j == (UnknownState, WindowInvalid) <==> r.qualifiedUntil != Some(until))
                    && (j == (Qualified, IsQualified) <==> r.qualifiedUntil == Some(until) && Before(today, until))
                    && (j == (Expired, IsExpired) <==> r.qualifiedUntil == Some(until) && !Before(today, until)))
  {
    if root.Some? {
      var dates := root.value.countedDates;
      assert forall i :: 0 <= i < |dates| ==> dates[i] in dates;
    }
  }

  /** Testing the newest act alone is enough: past the evidence checks, a company is QUALIFIED exactly when some counted
      act is still inside its own window. */
  lemma NewestActSuffices(r: Root, today: Date)
    requires DatesValid(r) && r.supplierRole && !r.deactivated && EvidenceSound(r) && WindowDeclared(r)
    requires r.countedDates != []
    ensures Judgement(Some(r), today).0 == Qualified <==>
            exists i :: 0 <= i < |r.countedDates| && WithinWindow(r.countedDates[i].value, today)
  {
    var newest := r.contractDate.value;
    if Judgement(Some(r), today).0 == Qualified {
      var i :| 0 <= i < |r.countedDates| && r.countedDates[i] == Some(newest);
      assert WithinWindow(r.countedDates[i].value, today);
    }
    if i :| 0 <= i < |r.countedDates| && WithinWindow(r.countedDates[i].value, today) {
      assert r.countedDates[i] in r.countedDates;
      YearsLaterMonotone(r.countedDates[i].value, newest, QUALIFICATION_WINDOW_YEARS);
    }
  }

  /** The same evidence never comes back from EXPIRED, and was QUALIFIED on every earlier day on which it is QUALIFIED
      later. */
  lemma ExpiryIsFinal(root: Option<Root>, today: Date, later: Date)
    requires !Before(later, today)
    ensures Judgement(root, today).0 == Expired ==> Judgement(root, later).0 == Expired
    ensures Judgement(root, later).0 == Qualified ==> Judgement(root, today).0 == Qualified
  {
  }
}
