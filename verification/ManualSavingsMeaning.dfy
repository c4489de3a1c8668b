/**
 * What a projection says, in terms of the calendar alone: days are counted by their number in the Gregorian calendar, and
 * the contributions are a list of pay dates.
 */
module ManualSavingsMeaning {
  import opened Wrappers
  import opened ManualSavings

  /** Days before the first of March of a year. */
  function YearStart(year: int): int { 365 * year + year / 4 - year / 100 + year / 400 }

  /** Days from the first of March to the first of the n-th month after it. */
  function MonthStart(n: int): int { (153 * n + 2) / 5 }

  /** The number of a day in the Gregorian calendar, counted in years that begin in March. */
  function DayNumber(d: Date): int {
    if d.month <= 2 then YearStart(d.year - 1) + MonthStart(d.month + 9) + d.day - 1
    else YearStart(d.year) + MonthStart(d.month - 3) + d.day - 1
  }

  function FirstOfNextMonth(d: Date): Date { if d.month == 12 then Date(d.year + 1, 1, 1) else Date(d.year, d.month + 1, 1) }

  /** A day of the years 1 to 9999 that the calendar has. */
  predicate IsDay(d: Date) { 1 <= d.year <= 9999 && 1 <= d.month <= 12 && 1 <= d.day && DayNumber(d) < DayNumber(FirstOfNextMonth(d)) }

  lemma DivStep(year: int, n: int)
    requires year >= 1 && n in {4, 100, 400}
    ensures year / n == (year - 1) / n + (if year % n == 0 then 1 else 0)
  {
  }

  lemma LeapIff(year: int)
    requires year >= 1
    ensures IsLeap(year) <==> year % 4 == 0 && (year % 100 == 0 ==> year % 400 == 0)
    ensures (year % 400 == 0 ==> year % 100 == 0) && (year % 100 == 0 ==> year % 4 == 0)
  {
  }

  lemma YearLength(year: int)
    requires year >= 1
    ensures YearStart(year) == YearStart(year - 1) + (if IsLeap(year) then 366 else 365)
  {
    LeapIff(year);
    DivStep(year, 4);
    DivStep(year, 100);
    DivStep(year, 400);
  }

  lemma MonthStarts()
    ensures MonthStart(0) == 0 && MonthStart(1) == 31 && MonthStart(2) == 61 && MonthStart(3) == 92 && MonthStart(4) == 122
    ensures MonthStart(5) == 153 && MonthStart(6) == 184 && MonthStart(7) == 214 && MonthStart(8) == 245 && MonthStart(9) == 275
    ensures MonthStart(10) == 306 && MonthStart(11) == 337
  {
  }

  lemma MonthLength(year: int, month: int)
    requires year >= 1 && 1 <= month <= 12
    ensures DayNumber(FirstOfNextMonth(Date(year, month, 1))) == DayNumber(Date(year, month, 1)) + LastDay(year, month)
  {
    MonthStarts();
    if month == 2 {
      YearLength(year);
    } else {
      assert MonthStart(if month == 1 then 11 else if month == 12 then 10 else month - 2)
          == MonthStart(if month == 1 then 10 else month - 3) + LastDay(year, month);
    }
  }

  lemma DayInMonth(d: Date)
    ensures DayNumber(d) == DayNumber(Date(d.year, d.month, 1)) + d.day - 1
  {
  }

  /** The days of the model are those of the calendar. */
  lemma DaysAreDays(d: Date)
    ensures IsCalendarDate(d) <==> IsDay(d)
  {
    if d.year >= 1 && 1 <= d.month <= 12 {
      MonthLength(d.year, d.month);
      DayInMonth(d);
    }
  }

  /** Going on by a day is the next day of the calendar. */
  lemma NextDay(d: Date)
    requires IsCalendarDate(d)
    ensures DayNumber(Tomorrow(d)) == DayNumber(d) + 1
  {
    DayInMonth(d);
    if d.day < LastDay(d.year, d.month) { DayInMonth(Tomorrow(d)); } else { MonthLength(d.year, d.month); }
  }

  lemma {:induction false} LaterNumber(a: Date, b: Date)
    requires IsCalendarDate(a) && IsCalendarDate(b) && Before(a, b)
    ensures DayNumber(a) < DayNumber(b)
    decreases Ord(b) - Ord(a)
  {
    TomorrowIsNext(a, b);
    NextDay(a);
    if Before(Tomorrow(a), b) { LaterNumber(Tomorrow(a), b); } else { SameDay(Tomorrow(a), b); }
  }

  lemma SameDay(a: Date, b: Date)
    requires IsCalendarDate(a) && IsCalendarDate(b) && Ord(a) == Ord(b)
    ensures a == b
  {
    IndexSplits(a);
    IndexSplits(b);
  }

  lemma BeforeMeaning(a: Date, b: Date)
    requires IsDay(a) && IsDay(b)
    ensures Before(a, b) <==> DayNumber(a) < DayNumber(b)
  {
    DaysAreDays(a);
    DaysAreDays(b);
    if Before(a, b) { LaterNumber(a, b); } else if Before(b, a) { LaterNumber(b, a); } else { SameDay(a, b); }
  }

  /** The plan's day of the month, or the last day of a month too short for it. */
  predicate IsPayDay(d: Date, day: int) {
    d.day == day || (d.day < day && DayNumber(d) + 1 == DayNumber(FirstOfNextMonth(d)))
  }

  lemma PayDayMeaning(d: Date, day: int)
    requires IsDay(d)
    ensures IsPayDate(d, day) <==> IsPayDay(d, day)
  {
    DaysAreDays(d);
    MonthLength(d.year, d.month);
    DayInMonth(d);
  }

  /** A pay day after the base date, up to today and to the end of the plan. */
  predicate IsDue(e: Date, asOfDate: Date, plan: Plan, today: Date) {
    && IsDay(e) && IsPayDay(e, plan.day) && DayNumber(asOfDate) < DayNumber(e) <= DayNumber(today)
    && (plan.endDate.Some? ==> DayNumber(e) <= DayNumber(plan.endDate.value))
  }

  /** A projection is refused exactly if an amount has more than twenty digits or a day is none. */
  lemma AcceptedIff(amount: int, asOfDate: Date, plan: Plan, today: Date)
    ensures Project(amount, asOfDate, plan, today).Ok? <==>
            && 0 <= amount < 100_000_000_000_000_000_000 && 1 <= plan.monthlyAmount < 100_000_000_000_000_000_000
            && 1 <= plan.day <= 31 && IsDay(asOfDate) && IsDay(today) && (plan.endDate.Some? ==> IsDay(plan.endDate.value))
  {
    DaysAreDays(asOfDate);
    DaysAreDays(today);
    if plan.endDate.Some? { DaysAreDays(plan.endDate.value); }
  }

  predicate Ascending(pays: seq<Date>) { forall i, j | 0 <= i < j < |pays| :: DayNumber(pays[i]) < DayNumber(pays[j]) }

  function Numbers(pays: seq<Date>): (nums: seq<int>)
    ensures |nums| == |pays| && forall i | 0 <= i < |pays| :: nums[i] == DayNumber(pays[i])
  {
    seq(|pays|, i requires 0 <= i < |pays| => DayNumber(pays[i]))
  }

  ghost function PayNumbers(day: int): iset<int> { iset d | IsDay(d) && IsPayDay(d, day) :: DayNumber(d) }

  /** These are the due days of a period, from the first one on and without a gap; some may be missing only if it is full. */
  ghost predicate Fills(nums: seq<int>, due: iset<int>, from: int, to: int, full: bool) {
    && (forall i, j | 0 <= i < j < |nums| :: nums[i] < nums[j])
    && (forall i | 0 <= i < |nums| :: nums[i] in due && from < nums[i] <= to)
    && forall x | x in due && from < x <= to && x !in nums :: full && (nums != [] ==> nums[|nums| - 1] < x)
  }

  lemma InFront<T>(first: T, rest: seq<T>, x: T)
    ensures x in [first] + rest <==> x == first || x in rest
  {
    if x == first { assert ([first] + rest)[0] == x; }
  }

  lemma FillsOneMore(nums: seq<int>, due: iset<int>, from: int, to: int, full: bool)
    requires Fills(nums, due, from + 1, to, full) && from + 1 in due && from + 1 <= to
    ensures Fills([from + 1] + nums, due, from, to, full)
  {
    var all := [from + 1] + nums;
    forall x | x in due && from < x <= to && x !in all ensures full && all[|all| - 1] < x {
      InFront(from + 1, nums, x);
    }
  }

  lemma FillsAsBefore(nums: seq<int>, due: iset<int>, from: int, to: int, full: bool)
    requires Fills(nums, due, from + 1, to, full) && (from + 1 in due ==> full && nums == [])
    ensures Fills(nums, due, from, to, full)
  {
  }

  lemma NumbersDiffer(a: Date, b: Date)
    requires IsDay(a) && IsDay(b) && DayNumber(a) == DayNumber(b)
    ensures a == b
  {
    DaysAreDays(a);
    DaysAreDays(b);
    BeforeMeaning(a, b);
    BeforeMeaning(b, a);
    SameDay(a, b);
  }

  lemma InPayNumbers(e: Date, day: int)
    requires IsDay(e)
    ensures DayNumber(e) in PayNumbers(day) <==> IsPayDay(e, day)
  {
    if DayNumber(e) in PayNumbers(day) {
      var d :| IsDay(d) && IsPayDay(d, day) && DayNumber(d) == DayNumber(e);
      NumbersDiffer(d, e);
    }
  }

  function Paying(p: Projection, pays: seq<Date>, plan: Plan): Projection {
    Projection(p.amount + plan.monthlyAmount * |pays|, if pays == [] then p.asOfDate else pays[|pays| - 1], p.contributions + |pays|)
  }

  lemma PayingOn(p: Projection, e: Date, pays: seq<Date>, plan: Plan)
    ensures Paying(Projection(p.amount + plan.monthlyAmount, e, p.contributions + 1), pays, plan) == Paying(p, [e] + pays, plan)
  {
    assert plan.monthlyAmount * (|pays| + 1) == plan.monthlyAmount * |pays| + plan.monthlyAmount;
  }

  lemma DayOn(d: Date, plan: Plan, limit: Date) returns (e: Date)
    requires IsCalendarDate(d) && IsCalendarDate(limit) && Before(d, limit)
    ensures e == Tomorrow(d) && IsCalendarDate(e) && Before(d, e) && !Before(limit, e)
    ensures IsDay(e) && DayNumber(e) == DayNumber(d) + 1 && DayNumber(e) <= DayNumber(limit)
    ensures IsPayDate(e, plan.day) <==> DayNumber(e) in PayNumbers(plan.day)
  {
    e := Tomorrow(d);
    TomorrowIsNext(d, limit);
    NextDay(d);
    DaysAreDays(e);
    DaysAreDays(limit);
    BeforeMeaning(limit, e);
    PayDayMeaning(e, plan.day);
    InPayNumbers(e, plan.day);
  }

  lemma NumbersInFront(e: Date, rest: seq<Date>)
    ensures Numbers([e] + rest) == [DayNumber(e)] + Numbers(rest)
  {
  }

  /** From one day to another these contributions made the one projection out of the other. */
  ghost predicate Lived(p: Projection, from: int, plan: Plan, to: int, q: Projection, pays: seq<Date>) {
    && q == Paying(p, pays, plan) && Fills(Numbers(pays), PayNumbers(plan.day), from, to, q.amount + plan.monthlyAmount > MAX_KRW)
    && (p.amount + plan.monthlyAmount > MAX_KRW ==> pays == []) && forall x | x in pays :: IsDay(x)
  }

  lemma DayPaid(p: Projection, e: Date, plan: Plan, from: int, to: int, q: Projection, rest: seq<Date>)
    requires Lived(Projection(p.amount + plan.monthlyAmount, e, p.contributions + 1), from + 1, plan, to, q, rest)
    requires IsDay(e) && DayNumber(e) == from + 1 <= to && from + 1 in PayNumbers(plan.day) && p.amount + plan.monthlyAmount <= MAX_KRW
    ensures Lived(p, from, plan, to, q, [e] + rest)
  {
    FillsOneMore(Numbers(rest), PayNumbers(plan.day), from, to, q.amount + plan.monthlyAmount > MAX_KRW);
    PayingOn(p, e, rest, plan);
    NumbersInFront(e, rest);
    AllDays(e, rest);
  }

  lemma DayPassed(p: Projection, plan: Plan, from: int, to: int, q: Projection, rest: seq<Date>)
    requires Lived(p, from + 1, plan, to, q, rest) && (from + 1 in PayNumbers(plan.day) ==> p.amount + plan.monthlyAmount > MAX_KRW)
    ensures Lived(p, from, plan, to, q, rest)
  {
    FillsAsBefore(Numbers(rest), PayNumbers(plan.day), from, to, q.amount + plan.monthlyAmount > MAX_KRW);
  }

  lemma OneDay(p: Projection, next: Projection, e: Date, plan: Plan, from: int, to: int, q: Projection, rest: seq<Date>) returns (pays: seq<Date>)
    requires Lived(next, from + 1, plan, to, q, rest) && IsDay(e) && DayNumber(e) == from + 1 <= to
    requires if from + 1 in PayNumbers(plan.day) && p.amount + plan.monthlyAmount <= MAX_KRW
             then next == Projection(p.amount + plan.monthlyAmount, e, p.contributions + 1) else next == p
    ensures Lived(p, from, plan, to, q, pays)
  {
    if next == p {
      DayPassed(p, plan, from, to, q, rest);
      pays := rest;
    } else {
      DayPaid(p, e, plan, from, to, q, rest);
      pays := [e] + rest;
    }
  }

  /** Living through the days pays on a list of pay days. */
  lemma {:induction false} AccruePays(p: Projection, d: Date, plan: Plan, limit: Date) returns (pays: seq<Date>)
    requires IsCalendarDate(d) && IsCalendarDate(limit) && plan.monthlyAmount >= 1
    ensures Lived(p, DayNumber(d), plan, DayNumber(limit), Accrue(p, d, plan, limit), pays)
    decreases Ord(limit) - Ord(d)
  {
    if Before(d, limit) {
      var e := DayOn(d, plan, limit);
      var next := Paid(p, e, plan);
      var rest := AccruePays(next, e, plan, limit);
      assert Accrue(p, d, plan, limit) == Accrue(next, e, plan, limit);
      pays := OneDay(p, next, e, plan, DayNumber(d), DayNumber(limit), Accrue(next, e, plan, limit), rest);
    } else {
      pays := [];
      NothingBetween(d, limit);
    }
  }

  lemma AllDays(e: Date, rest: seq<Date>)
    requires IsDay(e) && forall x | x in rest :: IsDay(x)
    ensures forall x | x in [e] + rest :: IsDay(x)
  {
    forall x | x in [e] + rest ensures IsDay(x) { InFront(e, rest, x); }
  }

  lemma NothingBetween(d: Date, limit: Date)
    requires IsCalendarDate(d) && IsCalendarDate(limit) && !Before(d, limit)
    ensures DayNumber(limit) <= DayNumber(d)
  {
    DaysAreDays(d);
    DaysAreDays(limit);
    BeforeMeaning(d, limit);
  }

  lemma LimitMeaning(plan: Plan, today: Date)
    requires IsDay(today) && (plan.endDate.Some? ==> IsDay(plan.endDate.value))
    ensures var n := DayNumber(Limit(plan, today));
            && IsDay(Limit(plan, today)) && n <= DayNumber(today) && (plan.endDate.Some? ==> n <= DayNumber(plan.endDate.value))
            && (n == DayNumber(today) || (plan.endDate.Some? && n == DayNumber(plan.endDate.value)))
  {
    if plan.endDate.Some? { BeforeMeaning(plan.endDate.value, today); }
  }

  lemma DueMeaning(e: Date, asOfDate: Date, plan: Plan, today: Date)
    requires IsDay(today) && (plan.endDate.Some? ==> IsDay(plan.endDate.value)) && IsDay(e)
    ensures IsDue(e, asOfDate, plan, today)
       <==> DayNumber(e) in PayNumbers(plan.day) && DayNumber(asOfDate) < DayNumber(e) <= DayNumber(Limit(plan, today))
  {
    LimitMeaning(plan, today);
    InPayNumbers(e, plan.day);
  }

  lemma InNumbers(e: Date, pays: seq<Date>)
    requires IsDay(e) && forall x | x in pays :: IsDay(x)
    ensures DayNumber(e) in Numbers(pays) <==> e in pays
  {
    if DayNumber(e) in Numbers(pays) {
      var k :| 0 <= k < |pays| && Numbers(pays)[k] == DayNumber(e);
      NumbersDiffer(pays[k], e);
    }
    if e in pays {
      var k :| 0 <= k < |pays| && pays[k] == e;
      assert Numbers(pays)[k] == DayNumber(e);
    }
  }

  lemma ProjectionPays(amount: int, asOfDate: Date, plan: Plan, today: Date) returns (pays: seq<Date>)
    requires Project(amount, asOfDate, plan, today).Ok?
    ensures var r := Project(amount, asOfDate, plan, today).value;
            && r == Paying(Projection(amount, asOfDate, 0), pays, plan) && r.amount < 100_000_000_000_000_000_000
            && Fills(Numbers(pays), PayNumbers(plan.day), DayNumber(asOfDate), DayNumber(Limit(plan, today)),
                     r.amount + plan.monthlyAmount >= 100_000_000_000_000_000_000)
    ensures (forall x | x in pays :: IsDay(x)) && IsDay(today) && (plan.endDate.Some? ==> IsDay(plan.endDate.value))
  {
    AcceptedIff(amount, asOfDate, plan, today);
    ProjectIsAccrual(amount, asOfDate, plan, today);
    var p, limit := Projection(amount, asOfDate, 0), Limit(plan, today);
    pays := AccruePays(p, asOfDate, plan, limit);
    AmountFits(p, asOfDate, plan, limit);
  }

  /** The contributions are made on due days, one after the other. */
  ghost predicate OnDueDays(pays: seq<Date>, asOfDate: Date, plan: Plan, today: Date) {
    Ascending(pays) && forall e | e in pays :: IsDue(e, asOfDate, plan, today)
  }

  /** A due day without a contribution comes after all the others, and there was no room for it. */
  ghost predicate NoneLeftOut(pays: seq<Date>, asOfDate: Date, plan: Plan, today: Date, full: bool) {
    forall e | IsDue(e, asOfDate, plan, today) && e !in pays :: full && (pays != [] ==> DayNumber(pays[|pays| - 1]) < DayNumber(e))
  }

  lemma PaysAreDue(pays: seq<Date>, asOfDate: Date, plan: Plan, today: Date, full: bool)
    requires IsDay(today) && (plan.endDate.Some? ==> IsDay(plan.endDate.value)) && forall x | x in pays :: IsDay(x)
    requires Fills(Numbers(pays), PayNumbers(plan.day), DayNumber(asOfDate), DayNumber(Limit(plan, today)), full)
    ensures OnDueDays(pays, asOfDate, plan, today)
  {
    forall e | e in pays ensures IsDue(e, asOfDate, plan, today) {
      InNumbers(e, pays);
      DueMeaning(e, asOfDate, plan, today);
    }
    assert forall i | 0 <= i < |pays| :: Numbers(pays)[i] == DayNumber(pays[i]);
  }

  lemma MissingAreLater(pays: seq<Date>, asOfDate: Date, plan: Plan, today: Date, full: bool)
    requires IsDay(today) && (plan.endDate.Some? ==> IsDay(plan.endDate.value)) && forall x | x in pays :: IsDay(x)
    requires Fills(Numbers(pays), PayNumbers(plan.day), DayNumber(asOfDate), DayNumber(Limit(plan, today)), full)
    ensures NoneLeftOut(pays, asOfDate, plan, today, full)
  {
    forall e | IsDue(e, asOfDate, plan, today) && e !in pays
      ensures full && (pays != [] ==> DayNumber(pays[|pays| - 1]) < DayNumber(e))
    {
      InNumbers(e, pays);
      DueMeaning(e, asOfDate, plan, today);
    }
  }

  /** These contributions, and no others, make the projection. */
  ghost predicate Explains(r: Projection, pays: seq<Date>, amount: int, asOfDate: Date, plan: Plan, today: Date) {
    && r.contributions == |pays| && r.amount == amount + plan.monthlyAmount * |pays| < 100_000_000_000_000_000_000
    && r.asOfDate == (if pays == [] then asOfDate else pays[|pays| - 1])
    && OnDueDays(pays, asOfDate, plan, today)
    && NoneLeftOut(pays, asOfDate, plan, today, r.amount + plan.monthlyAmount >= 100_000_000_000_000_000_000)
  }

  lemma PaysExplain(r: Projection, pays: seq<Date>, amount: int, asOfDate: Date, plan: Plan, today: Date)
    requires IsDay(today) && (plan.endDate.Some? ==> IsDay(plan.endDate.value)) && forall x | x in pays :: IsDay(x)
    requires r == Paying(Projection(amount, asOfDate, 0), pays, plan) && r.amount < 100_000_000_000_000_000_000
    requires Fills(Numbers(pays), PayNumbers(plan.day), DayNumber(asOfDate), DayNumber(Limit(plan, today)),
                   r.amount + plan.monthlyAmount >= 100_000_000_000_000_000_000)
    ensures Explains(r, pays, amount, asOfDate, plan, today)
  {
    var full := r.amount + plan.monthlyAmount >= 100_000_000_000_000_000_000;
    PaysAreDue(pays, asOfDate, plan, today, full);
    MissingAreLater(pays, asOfDate, plan, today, full);
  }

  /**
   * The contributions of a projection are the due pay days from the first one on, without a gap: all of them, or as many as
   * twenty digits have room for. The amount is the base with so many contributions, and the date is that of the last.
   */
  lemma ProjectionMeaning(amount: int, asOfDate: Date, plan: Plan, today: Date) returns (pays: seq<Date>)
    requires Project(amount, asOfDate, plan, today).Ok?
    ensures Explains(Project(amount, asOfDate, plan, today).value, pays, amount, asOfDate, plan, today)
  {
    pays := ProjectionPays(amount, asOfDate, plan, today);
    PaysExplain(Project(amount, asOfDate, plan, today).value, pays, amount, asOfDate, plan, today);
  }
}
