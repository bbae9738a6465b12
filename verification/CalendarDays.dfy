/** The Gregorian calendar in days, against the month starts built month by month. */
module CalendarDays {
  import opened Calendar

  /** Leap years from year 1 to the one before y. */
  function LeapsBefore(y: nat): int
    requires y >= 1
  {
    (y - 1) / 4 - (y - 1) / 100 + (y - 1) / 400
  }

  /** Days from the start of an ordinary year to the start of each of its months. */
  const DAYS_BEFORE: seq<nat> := [0, 31, 59, 90, 120, 151, 181, 212, 243, 273, 304, 334]

  predicate IsLeap(y: nat) { if y % 100 == 0 then y % 400 == 0 else y % 4 == 0 }

  function LeapDay(y: nat): nat { if IsLeap(y) then 1 else 0 }

  lemma FourthYear(y: nat)
    requires y >= 1
    ensures y / 4 == (y - 1) / 4 + if y % 4 == 0 then 1 else 0
  {
  }

  /** Whole multiples of d in n, and what is left. */
  lemma Multiples(n: nat, d: nat, q: nat, r: nat)
    requires d > 0 && n == d * q + r && r < d
    ensures n / d == q && n % d == r
  {
    Scales(d, n / d + 1, q);
    Scales(d, q + 1, n / d);
  }

  lemma Scales(d: nat, a: int, b: int)
    ensures a <= b ==> d * a <= d * b
  {
  }

  lemma HundredthYear(y: nat)
    requires y >= 1
    ensures y / 100 == (y - 1) / 100 + if y % 100 == 0 then 1 else 0
  {
    var q, r := (y - 1) / 100, (y - 1) % 100;
    if r == 99 { Multiples(y, 100, q + 1, 0); } else { Multiples(y, 100, q, r + 1); }
  }

  lemma EveryHundredth(y: nat)
    ensures y % 100 == 0 ==> y % 4 == 0
  {
    if y % 100 == 0 { Multiples(y, 4, 25 * (y / 100), 0); }
  }

  lemma FourHundredthYear(y: nat)
    requires y >= 1
    ensures y / 400 == (y - 1) / 400 + if y % 400 == 0 then 1 else 0
  {
    var q, r := (y - 1) / 400, (y - 1) % 400;
    if r == 399 { Multiples(y, 400, q + 1, 0); } else { Multiples(y, 400, q, r + 1); }
  }

  lemma EveryFourHundredth(y: nat)
    ensures y % 400 == 0 ==> y % 100 == 0
  {
    if y % 400 == 0 { Multiples(y, 100, 4 * (y / 400), 0); }
  }

  lemma LeapCounts(y: nat)
    requires y >= 1
    ensures LeapsBefore(y + 1) == LeapsBefore(y) + LeapDay(y)
    ensures Leap(y) <==> IsLeap(y)
  {
    FourthYear(y);
    HundredthYear(y);
    EveryHundredth(y);
    FourHundredthYear(y);
    EveryFourHundredth(y);
  }

  /** Days from the epoch to the start of a month. */
  function DaysTo(month: nat): nat { if month == 0 then 0 else DaysTo(month - 1) + Days(month - 1) }

  lemma {:induction false} StartsAfterDays(month: nat)
    ensures MonthStart(month) == DaysTo(month) * 86_400_000
  {
    if month > 0 {
      StartsAfterDays(month - 1);
      hide Days;
    }
  }

  /** Month j of the year 1970 + k, by name. */
  lemma DaysOf(k: nat, j: nat)
    requires j <= 11
    ensures Days(12 * k + j) ==
            if j == 1 then 28 + LeapDay(1970 + k) else if j == 3 || j == 5 || j == 8 || j == 10 then 30 else 31
  {
    assert (12 * k + j) % 12 == j && (12 * k + j) / 12 == k;
    LeapCounts(1970 + k);
    hide Leap, IsLeap, LeapsBefore;
  }

  lemma {:induction false} DaysIntoYear(k: nat, j: nat)
    requires j <= 11
    ensures DaysTo(12 * k + j) == DaysTo(12 * k) + DAYS_BEFORE[j] + if j >= 2 then LeapDay(1970 + k) else 0
  {
    hide Days, LeapDay;
    if j > 0 {
      DaysIntoYear(k, j - 1);
      DaysOf(k, j - 1);
    }
  }

  lemma {:induction false} YearsStart(k: nat)
    ensures DaysTo(12 * k) == 365 * k + LeapsBefore(1970 + k) - LeapsBefore(1970)
  {
    hide Days, LeapDay, LeapsBefore;
    if k > 0 {
      YearsStart(k - 1);
      DaysIntoYear(k - 1, 11);
      DaysOf(k - 1, 11);
      LeapCounts(1970 + k - 1);
      assert DaysTo(12 * k) == DaysTo(12 * (k - 1) + 11) + Days(12 * (k - 1) + 11);
    }
  }

  /**
   Month starts are those of the Gregorian calendar: month j of year 1970 + k begins as
   many days after the epoch as 365 a year, one for each leap year between and the days
   before the month add up to.
   */
  lemma MonthsStartAtDays(k: nat, j: nat)
    requires j <= 11
    ensures MonthStart(12 * k + j) ==
            (365 * k + LeapsBefore(1970 + k) - LeapsBefore(1970) + DAYS_BEFORE[j] + if j >= 2 then LeapDay(1970 + k) else 0) * 86_400_000
  {
    hide DaysTo, LeapsBefore, LeapDay, MonthStart;
    YearsStart(k);
    DaysIntoYear(k, j);
    StartsAfterDays(12 * k + j);
  }
}
