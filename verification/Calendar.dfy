/** UTC months in milliseconds since 1970-01-01, numbered from zero. */
module Calendar {

  const DAY_MS := 86_400_000

  function Year(month: nat): nat { 1970 + month / 12 }

  predicate Leap(year: nat) { year % 4 == 0 && (year % 100 != 0 || year % 400 == 0) }

  function Days(month: nat): (d: nat)
    ensures 28 <= d <= 31
  {
    var m := month % 12;
    if m == 1 then (if Leap(Year(month)) then 29 else 28)
    else if m == 3 || m == 5 || m == 8 || m == 10 then 30
    else 31
  }

  function MonthStart(month: nat): (ms: nat)
    ensures ms >= month
  {
    if month == 0 then 0 else MonthStart(month - 1) + Days(month - 1) * DAY_MS
  }

  lemma {:induction false} MonthsRise(i: nat, j: nat)
    requires i < j
    ensures MonthStart(i) < MonthStart(j)
  {
    if i < j - 1 { MonthsRise(i, j - 1); }
  }

  function MonthFrom(t: nat, from: nat): (month: nat)
    requires MonthStart(from) <= t
    ensures MonthStart(month) <= t < MonthStart(month + 1)
    decreases t - MonthStart(from)
  {
    if t < MonthStart(from + 1) then from else MonthFrom(t, from + 1)
  }

  /** _month_key: the month an instant falls into. */
  function MonthOf(t: nat): (month: nat)
    ensures MonthStart(month) <= t < MonthStart(month + 1)
  {
    MonthFrom(t, 0)
  }

  lemma MonthUnique(t: nat, month: nat)
    requires MonthStart(month) <= t < MonthStart(month + 1)
    ensures MonthOf(t) == month
  {
    var m := MonthOf(t);
    if m + 1 < month { MonthsRise(m + 1, month); }
    if month + 1 < m { MonthsRise(month + 1, m); }
  }

  /** No month begins strictly inside (a, b). */
  ghost predicate SameMonth(a: nat, b: nat) { forall m: nat :: !(a < MonthStart(m) < b) }

  lemma MonthConstant(a: nat, b: nat, t: nat)
    requires a <= t < b && SameMonth(a, b)
    ensures MonthOf(t) == MonthOf(a)
  {
    var m := MonthOf(a);
    assert !(a < MonthStart(m + 1) < b);
    MonthUnique(t, m);
  }

  ghost predicate IsMonthStart(x: int) { exists m: nat :: MonthStart(m) == x }

  /** Exactly the month starts strictly inside the half-open span. */
  method MonthBoundaries(start: nat, end: nat) returns (cuts: set<int>)
    ensures forall x :: x in cuts ==> start < x < end && IsMonthStart(x)
    ensures forall m: nat :: start < MonthStart(m) < end ==> MonthStart(m) in cuts
  {
    hide MonthStart, MonthOf, Days;
    var first := MonthOf(start);
    var month := first + 1;
    cuts := {};
    while MonthStart(month) < end
      invariant month > first
      invariant forall x :: x in cuts ==> start < x < end && IsMonthStart(x)
      invariant forall m: nat :: first < m < month ==> MonthStart(m) in cuts
      decreases end - MonthStart(month)
    {
      var boundary := MonthStart(month);
      if first + 1 < month { MonthsRise(first + 1, month); }
      if boundary > start {
        cuts := cuts + {boundary};
      }
      MonthsRise(month, month + 1);
      month := month + 1;
    }
    forall m: nat | start < MonthStart(m) < end ensures MonthStart(m) in cuts {
      if m >= month && m > month { MonthsRise(month, m); }
      if m < first { MonthsRise(m, first); }
    }
  }
}
