/**
 * Automatic monthly savings: a closed form over month numbers, which must equal walking through the calendar day by day.
 *
 * A date is a record here; ISO text of valid dates compares as the dates do (StringOrderIsDateOrder).
 */
module ManualSavings {
  import opened Wrappers
  import Strings

  datatype Result<+T> = Ok(value: T) | RangeError

  datatype Date = Date(year: int, month: int, day: int)

  datatype Plan = Plan(monthlyAmount: int, day: int, endDate: Option<Date>)

  datatype Projection = Projection(amount: int, asOfDate: Date, contributions: nat)

  /** The largest amount of twenty digits. */
  const MAX_KRW: int := 99_999_999_999_999_999_999

  predicate IsLeap(year: int) { year % 4 == 0 && (year % 100 != 0 || year % 400 == 0) }

  function LastDay(year: int, month: int): int {
    if month == 2 then (if IsLeap(year) then 29 else 28) else if month in {4, 6, 9, 11} then 30 else 31
  }

  predicate IsCalendarDate(d: Date) { 1 <= d.year <= 9999 && 1 <= d.month <= 12 && 1 <= d.day <= LastDay(d.year, d.month) }

  function MonthIndex(d: Date): int { d.year * 12 + d.month - 1 }

  function ContributionDate(month: int, day: int): Date
    requires month >= 0
  {
    var year, m := month / 12, month % 12 + 1;
    Date(year, m, if day < LastDay(year, m) then day else LastDay(year, m))
  }

  /** Position in the calendar, at 32 places a month. */
  function Ord(d: Date): int { MonthIndex(d) * 32 + d.day }

  predicate Before(a: Date, b: Date) { Ord(a) < Ord(b) }

  predicate ValidPlan(amount: int, asOfDate: Date, plan: Plan, today: Date) {
    && 0 <= amount <= MAX_KRW && 1 <= plan.monthlyAmount <= MAX_KRW && 1 <= plan.day <= 31
    && IsCalendarDate(asOfDate) && IsCalendarDate(today) && (plan.endDate.Some? ==> IsCalendarDate(plan.endDate.value))
  }

  function Limit(plan: Plan, today: Date): Date {
    if plan.endDate.Some? && Before(plan.endDate.value, today) then plan.endDate.value else today
  }

  /** The first month whose pay date comes after `d`. */
  function NextMonth(d: Date, day: int): int
    requires IsCalendarDate(d)
  {
    var m := MonthIndex(d);
    if !Before(d, ContributionDate(m, day)) then m + 1 else m
  }

  /** The closed form of the program. */
  function Project(amount: int, asOfDate: Date, plan: Plan, today: Date): (r: Result<Projection>)
    ensures r.Ok? <==> ValidPlan(amount, asOfDate, plan, today)
  {
    if !ValidPlan(amount, asOfDate, plan, today) then RangeError
    else
      var limit := Limit(plan, today);
      var first := NextMonth(asOfDate, plan.day);
      var month := MonthIndex(limit);
      var last := if Before(limit, ContributionDate(month, plan.day)) then month - 1 else month;
      var due := if last >= first then last - first + 1 else 0;
      var contributions :=
        if due > 0 && amount + plan.monthlyAmount * due > MAX_KRW then (MAX_KRW - amount) / plan.monthlyAmount else due;
      if contributions <= 0 then Ok(Projection(amount, asOfDate, 0))
      else
        Ok(Projection(amount + plan.monthlyAmount * contributions, ContributionDate(first + contributions - 1, plan.day), contributions))
  }

  // ---- the simple form: one day after the other ----

  function Tomorrow(d: Date): Date {
    if d.day < LastDay(d.year, d.month) then d.(day := d.day + 1)
    else if d.month < 12 then Date(d.year, d.month + 1, 1)
    else Date(d.year + 1, 1, 1)
  }

  /** Money is due on the plan's day, or on the last day of a month too short for it. */
  predicate IsPayDate(d: Date, day: int) { d.day == if day < LastDay(d.year, d.month) then day else LastDay(d.year, d.month) }

  /** A contribution is made on a pay date as long as the amount keeps within twenty digits. */
  function Paid(p: Projection, d: Date, plan: Plan): Projection {
    if IsPayDate(d, plan.day) && p.amount + plan.monthlyAmount <= MAX_KRW
    then Projection(p.amount + plan.monthlyAmount, d, p.contributions + 1)
    else p
  }

  lemma TomorrowIsNext(d: Date, limit: Date)
    requires IsCalendarDate(d) && IsCalendarDate(limit) && Before(d, limit)
    ensures IsCalendarDate(Tomorrow(d)) && Before(d, Tomorrow(d)) && !Before(limit, Tomorrow(d))
  {
    assert 28 <= LastDay(d.year, d.month) <= 31 && limit.day <= 31;
    if MonthIndex(d) == MonthIndex(limit) {
      IndexSplits(d);
      IndexSplits(limit);
    }
  }

  /** Live through every day after `d`, up to and including `limit`. */
  function Accrue(p: Projection, d: Date, plan: Plan, limit: Date): Projection
    requires IsCalendarDate(d) && IsCalendarDate(limit)
    decreases Ord(limit) - Ord(d)
  {
    if !Before(d, limit) then p
    else
      TomorrowIsNext(d, limit);
      Accrue(Paid(p, Tomorrow(d), plan), Tomorrow(d), plan, limit)
  }

  /** Going on by a day passes a pay date exactly when that day is one. */
  lemma DayPasses(d: Date, day: int)
    requires IsCalendarDate(d) && IsCalendarDate(Tomorrow(d)) && 1 <= day <= 31
    ensures NextMonth(Tomorrow(d), day) == NextMonth(d, day) + (if IsPayDate(Tomorrow(d), day) then 1 else 0)
    ensures IsPayDate(Tomorrow(d), day) ==> Tomorrow(d) == ContributionDate(NextMonth(d, day), day)
  {
    var e := Tomorrow(d);
    IndexSplits(d);
    IndexSplits(e);
  }

  lemma IndexSplits(d: Date)
    requires IsCalendarDate(d)
    ensures MonthIndex(d) / 12 == d.year && MonthIndex(d) % 12 + 1 == d.month
  {
  }

  /** Contributions that still fit. */
  function Room(amount: int, monthly: int): int
    requires 0 <= amount <= MAX_KRW && monthly >= 1
  {
    (MAX_KRW - amount) / monthly
  }

  lemma RoomFits(amount: int, monthly: int, n: int)
    requires 0 <= amount <= MAX_KRW && monthly >= 1 && n >= 0
    ensures n <= Room(amount, monthly) <==> amount + monthly * n <= MAX_KRW
  {
    var room := Room(amount, monthly);
    assert MAX_KRW - amount == monthly * room + (MAX_KRW - amount) % monthly;
    if n <= room {
      MulOrder(monthly, n, room);
    } else {
      MulOrder(monthly, room + 1, n);
      assert monthly * (room + 1) == monthly * room + monthly;
    }
  }

  lemma MulOrder(m: int, a: int, b: int)
    requires m >= 1 && a <= b
    ensures m * a <= m * b
  {
  }

  lemma RoomAfter(amount: int, monthly: int)
    requires 0 <= amount && amount + monthly <= MAX_KRW && monthly >= 1
    ensures Room(amount + monthly, monthly) == Room(amount, monthly) - 1
  {
    var r := Room(amount + monthly, monthly);
    RoomFits(amount + monthly, monthly, r);
    RoomFits(amount, monthly, r + 1);
    RoomFits(amount + monthly, monthly, r + 1);
    RoomFits(amount, monthly, r + 2);
    assert monthly * (r + 1) == monthly * r + monthly && monthly * (r + 2) == monthly * (r + 1) + monthly;
  }

  function Min(a: int, b: int): int { if a < b then a else b }

  /** Adding `n` contributions at once, the last of them in the month `first + n - 1`. */
  function Jump(p: Projection, first: int, n: nat, plan: Plan): Projection
    requires first >= 0
  {
    if n == 0 then p
    else Projection(p.amount + plan.monthlyAmount * n, ContributionDate(first + n - 1, plan.day), p.contributions + n)
  }

  lemma JumpOn(p: Projection, first: int, n: nat, plan: Plan)
    requires first >= 0
    ensures Jump(Jump(p, first, 1, plan), first + 1, n, plan) == Jump(p, first, n + 1, plan)
  {
    assert plan.monthlyAmount * (n + 1) == plan.monthlyAmount * n + plan.monthlyAmount;
  }

  lemma {:induction false} MonthsGrow(d: Date, limit: Date, day: int)
    requires IsCalendarDate(d) && IsCalendarDate(limit) && 1 <= day <= 31 && !Before(limit, d)
    ensures NextMonth(d, day) <= NextMonth(limit, day)
    decreases Ord(limit) - Ord(d)
  {
    if Before(d, limit) {
      TomorrowIsNext(d, limit);
      DayPasses(d, day);
      MonthsGrow(Tomorrow(d), limit, day);
    } else {
      assert d == limit by { IndexSplits(d); IndexSplits(limit); }
    }
  }

  /** How many of so many contributions fit. */
  function Fitting(amount: int, months: int, plan: Plan): int
    requires 0 <= amount <= MAX_KRW && plan.monthlyAmount >= 1
  {
    Min(months, Room(amount, plan.monthlyAmount))
  }

  /** How many contributions fall between two days and fit. */
  function Due(amount: int, d: Date, plan: Plan, limit: Date): int
    requires IsCalendarDate(d) && IsCalendarDate(limit) && 0 <= amount <= MAX_KRW && plan.monthlyAmount >= 1
  {
    Fitting(amount, NextMonth(limit, plan.day) - NextMonth(d, plan.day), plan)
  }

  lemma PayingOnce(p: Projection, q: Projection, first: int, months: nat, plan: Plan)
    requires first >= 0 && 0 <= p.amount && p.amount + plan.monthlyAmount <= MAX_KRW && plan.monthlyAmount >= 1
    requires q == Jump(p, first, 1, plan)
    ensures 0 <= q.amount <= MAX_KRW && Fitting(q.amount, months, plan) >= 0 && Fitting(p.amount, months + 1, plan) >= 0
    ensures Jump(q, first + 1, Fitting(q.amount, months, plan), plan) == Jump(p, first, Fitting(p.amount, months + 1, plan), plan)
  {
    RoomAfter(p.amount, plan.monthlyAmount);
    assert q.amount == p.amount + plan.monthlyAmount;
    RoomFits(p.amount, plan.monthlyAmount, 1);
    JumpOn(p, first, Fitting(q.amount, months, plan), plan);
  }

  lemma NotPaying(p: Projection, first: int, months: nat, passed: nat, plan: Plan)
    requires first >= 0 && 0 <= p.amount <= MAX_KRW && plan.monthlyAmount >= 1
    requires passed == 0 || p.amount + plan.monthlyAmount > MAX_KRW
    ensures Fitting(p.amount, months, plan) >= 0 && Fitting(p.amount, months + passed, plan) >= 0
    ensures Jump(p, first + passed, Fitting(p.amount, months, plan), plan) == Jump(p, first, Fitting(p.amount, months + passed, plan), plan)
  {
    RoomFits(p.amount, plan.monthlyAmount, 0);
    RoomFits(p.amount, plan.monthlyAmount, 1);
  }

  lemma PaidIsJump(p: Projection, d: Date, plan: Plan) returns (passed: nat)
    requires IsCalendarDate(d) && IsCalendarDate(Tomorrow(d)) && 1 <= plan.day <= 31
    ensures NextMonth(Tomorrow(d), plan.day) == NextMonth(d, plan.day) + passed && passed <= 1
    ensures Paid(p, Tomorrow(d), plan) ==
            if passed == 1 && p.amount + plan.monthlyAmount <= MAX_KRW then Jump(p, NextMonth(d, plan.day), 1, plan) else p
  {
    DayPasses(d, plan.day);
    passed := if IsPayDate(Tomorrow(d), plan.day) then 1 else 0;
  }

  lemma MonthOn(p: Projection, q: Projection, first: int, months: nat, passed: nat, plan: Plan)
    requires first >= 0 && 0 <= p.amount <= MAX_KRW && plan.monthlyAmount >= 1 && passed <= 1
    requires q == if passed == 1 && p.amount + plan.monthlyAmount <= MAX_KRW then Jump(p, first, 1, plan) else p
    ensures 0 <= q.amount <= MAX_KRW && Fitting(q.amount, months, plan) >= 0 && Fitting(p.amount, months + passed, plan) >= 0
    ensures Jump(q, first + passed, Fitting(q.amount, months, plan), plan) == Jump(p, first, Fitting(p.amount, months + passed, plan), plan)
  {
    if passed == 1 && p.amount + plan.monthlyAmount <= MAX_KRW {
      PayingOnce(p, q, first, months, plan);
    } else {
      NotPaying(p, first, months, passed, plan);
    }
  }

  lemma DayByDay(p: Projection, d: Date, plan: Plan, limit: Date, e: Date, q: Projection)
    requires IsCalendarDate(d) && IsCalendarDate(limit) && 1 <= plan.day <= 31 && e == Tomorrow(d) && IsCalendarDate(e)
    requires 0 <= p.amount <= MAX_KRW && plan.monthlyAmount >= 1 && q == Paid(p, e, plan)
    requires NextMonth(e, plan.day) <= NextMonth(limit, plan.day)
    ensures 0 <= q.amount <= MAX_KRW && Due(p.amount, d, plan, limit) >= 0 && Due(q.amount, e, plan, limit) >= 0
    ensures Jump(q, NextMonth(e, plan.day), Due(q.amount, e, plan, limit), plan)
         == Jump(p, NextMonth(d, plan.day), Due(p.amount, d, plan, limit), plan)
  {
    var passed := PaidIsJump(p, d, plan);
    MonthOn(p, q, NextMonth(d, plan.day), NextMonth(limit, plan.day) - NextMonth(e, plan.day), passed, plan);
  }

  /** Day by day, the contributions are those of the months passed, as many as there is room for. */
  lemma {:induction false} AccrueJumps(p: Projection, d: Date, plan: Plan, limit: Date)
    requires IsCalendarDate(d) && IsCalendarDate(limit) && 1 <= plan.day <= 31 && !Before(limit, d)
    requires 0 <= p.amount <= MAX_KRW && plan.monthlyAmount >= 1
    ensures Due(p.amount, d, plan, limit) >= 0
    ensures Accrue(p, d, plan, limit) == Jump(p, NextMonth(d, plan.day), Due(p.amount, d, plan, limit), plan)
    decreases Ord(limit) - Ord(d)
  {
    MonthsGrow(d, limit, plan.day);
    if Before(d, limit) {
      TomorrowIsNext(d, limit);
      MonthsGrow(Tomorrow(d), limit, plan.day);
      DayByDay(p, d, plan, limit, Tomorrow(d), Paid(p, Tomorrow(d), plan));
      AccrueJumps(Paid(p, Tomorrow(d), plan), Tomorrow(d), plan, limit);
    } else {
      assert d == limit by { IndexSplits(d); IndexSplits(limit); }
    }
  }

  /** The program divides only when the contributions would not fit. */
  lemma CappedIsFitting(amount: int, due: int, plan: Plan)
    requires 0 <= amount <= MAX_KRW && plan.monthlyAmount >= 1 && due > 0
    ensures Fitting(amount, due, plan) == if amount + plan.monthlyAmount * due > MAX_KRW then (MAX_KRW - amount) / plan.monthlyAmount else due
  {
    RoomFits(amount, plan.monthlyAmount, due);
  }

  lemma ClosedFormJumps(amount: int, asOfDate: Date, plan: Plan, today: Date)
    requires ValidPlan(amount, asOfDate, plan, today)
    ensures var n := Due(amount, asOfDate, plan, Limit(plan, today));
            Project(amount, asOfDate, plan, today) == Ok(Jump(Projection(amount, asOfDate, 0), NextMonth(asOfDate, plan.day), if n > 0 then n else 0, plan))
  {
    var due := NextMonth(Limit(plan, today), plan.day) - NextMonth(asOfDate, plan.day);
    if due > 0 { CappedIsFitting(amount, due, plan); }
  }

  /** What the program computes in one step is what living through the days would have saved. */
  lemma ProjectIsAccrual(amount: int, asOfDate: Date, plan: Plan, today: Date)
    requires ValidPlan(amount, asOfDate, plan, today)
    ensures Project(amount, asOfDate, plan, today) == Ok(Accrue(Projection(amount, asOfDate, 0), asOfDate, plan, Limit(plan, today)))
  {
    ClosedFormJumps(amount, asOfDate, plan, today);
    if Before(Limit(plan, today), asOfDate) {
      MonthsGrow(Limit(plan, today), asOfDate, plan.day);
    } else {
      AccrueJumps(Projection(amount, asOfDate, 0), asOfDate, plan, Limit(plan, today));
    }
  }

  /** Days can be lived through in two stretches. */
  lemma {:induction false} AccrueSplits(p: Projection, d: Date, plan: Plan, middle: Date, limit: Date)
    requires IsCalendarDate(d) && IsCalendarDate(middle) && IsCalendarDate(limit) && !Before(middle, d) && !Before(limit, middle)
    ensures Accrue(p, d, plan, limit) == Accrue(Accrue(p, d, plan, middle), middle, plan, limit)
    decreases Ord(middle) - Ord(d)
  {
    if Before(d, middle) {
      TomorrowIsNext(d, middle);
      AccrueSplits(Paid(p, Tomorrow(d), plan), Tomorrow(d), plan, middle, limit);
    } else {
      assert d == middle by { IndexSplits(d); IndexSplits(middle); }
    }
  }

  /** No day after the last contribution can have been a pay date with room, so it makes no difference to start there. */
  lemma {:induction false} FromLastContribution(p: Projection, d: Date, plan: Plan, limit: Date)
    requires IsCalendarDate(d) && IsCalendarDate(limit) && !Before(limit, d)
    ensures var q := Accrue(p, d, plan, limit);
            q == p || (IsCalendarDate(q.asOfDate) && Before(d, q.asOfDate) && !Before(limit, q.asOfDate)
                       && Accrue(q, q.asOfDate, plan, limit) == q)
    decreases Ord(limit) - Ord(d)
  {
    if Before(d, limit) {
      TomorrowIsNext(d, limit);
      var e := Tomorrow(d);
      FromLastContribution(Paid(p, e, plan), e, plan, limit);
    }
  }

  function Shifted(p: Projection, k: nat): Projection { p.(contributions := p.contributions + k) }

  lemma PaidShifts(p: Projection, k: nat, e: Date, plan: Plan)
    ensures Paid(Shifted(p, k), e, plan) == Shifted(Paid(p, e, plan), k)
  {
  }

  lemma {:induction false} CountShifts(p: Projection, k: nat, d: Date, plan: Plan, limit: Date)
    requires IsCalendarDate(d) && IsCalendarDate(limit)
    ensures Accrue(Shifted(p, k), d, plan, limit) == Shifted(Accrue(p, d, plan, limit), k)
    decreases Ord(limit) - Ord(d)
  {
    if Before(d, limit) {
      var e := Tomorrow(d);
      TomorrowIsNext(d, limit);
      PaidShifts(p, k, e, plan);
      CountShifts(Paid(p, e, plan), k, e, plan, limit);
    }
  }

  lemma {:induction false} AmountFits(p: Projection, d: Date, plan: Plan, limit: Date)
    requires IsCalendarDate(d) && IsCalendarDate(limit) && 0 <= p.amount <= MAX_KRW && plan.monthlyAmount >= 1
    ensures p.amount <= Accrue(p, d, plan, limit).amount <= MAX_KRW
    decreases Ord(limit) - Ord(d)
  {
    if Before(d, limit) {
      TomorrowIsNext(d, limit);
      AmountFits(Paid(p, Tomorrow(d), plan), Tomorrow(d), plan, limit);
    }
  }

  lemma GoesOn(p: Projection, d: Date, plan: Plan, middle: Date, limit: Date)
    requires IsCalendarDate(d) && IsCalendarDate(middle) && IsCalendarDate(limit) && !Before(limit, middle) && p.asOfDate == d
    ensures var q := Accrue(p, d, plan, middle);
            IsCalendarDate(q.asOfDate) && Accrue(q, q.asOfDate, plan, limit) == Accrue(p, d, plan, limit)
  {
    if !Before(middle, d) {
      var q := Accrue(p, d, plan, middle);
      AccrueSplits(p, d, plan, middle, limit);
      FromLastContribution(p, d, plan, middle);
      if q != p { AccrueSplits(q, q.asOfDate, plan, middle, limit); }
    }
  }

  /**
   * The screen shows the computed amount as the new base, so saving it must not change anything: projecting to one day,
   * storing that, and projecting on to a later day gives what projecting there at once gives.
   */
  lemma SavingTheProjectionIsHarmless(amount: int, asOfDate: Date, plan: Plan, today: Date, later: Date)
    returns (now: Projection, next: Projection, direct: Projection)
    requires ValidPlan(amount, asOfDate, plan, today) && IsCalendarDate(later) && !Before(later, today)
    ensures Project(amount, asOfDate, plan, today) == Ok(now) && Project(now.amount, now.asOfDate, plan, later) == Ok(next)
    ensures Project(amount, asOfDate, plan, later) == Ok(direct)
    ensures next.amount == direct.amount && next.asOfDate == direct.asOfDate
    ensures now.contributions + next.contributions == direct.contributions
  {
    var p := Projection(amount, asOfDate, 0);
    var middle, limit := Limit(plan, today), Limit(plan, later);
    ProjectIsAccrual(amount, asOfDate, plan, today);
    ProjectIsAccrual(amount, asOfDate, plan, later);
    now, direct := Accrue(p, asOfDate, plan, middle), Accrue(p, asOfDate, plan, limit);
    AmountFits(p, asOfDate, plan, middle);
    GoesOn(p, asOfDate, plan, middle, limit);
    ProjectIsAccrual(now.amount, now.asOfDate, plan, later);
    next := Accrue(Projection(now.amount, now.asOfDate, 0), now.asOfDate, plan, limit);
    CountShifts(Projection(now.amount, now.asOfDate, 0), now.contributions, now.asOfDate, plan, limit);
  }

  // ---- dates as text ----

  function Digit(n: int): char
    requires 0 <= n <= 9
  {
    '0' + n as char
  }

  /** The number in exactly `w` digits. */
  function Pad(n: int, w: nat): string
    requires n >= 0
    decreases w
  {
    if w == 0 then "" else Pad(n / 10, w - 1) + [Digit(n % 10)]
  }

  function Text(d: Date): string
    requires IsCalendarDate(d)
  {
    Pad(d.year, 4) + "-" + Pad(d.month, 2) + "-" + Pad(d.day, 2)
  }

  function Pow10(w: nat): int { if w == 0 then 1 else 10 * Pow10(w - 1) }

  /** Two texts of one length compare by their heads first. */
  lemma {:induction false} HeadsDecide(a: string, b: string, s: string, t: string)
    requires |a| == |b|
    ensures Strings.Leq(a + s, b + t) <==> (a != b && Strings.Leq(a, b)) || (a == b && Strings.Leq(s, t))
  {
    if a == "" {
      assert a + s == s && b + t == t;
    } else {
      HeadsDecide(a[1..], b[1..], s, t);
      assert (a + s)[1..] == a[1..] + s && (b + t)[1..] == b[1..] + t;
      assert a == [a[0]] + a[1..] && b == [b[0]] + b[1..];
    }
  }

  lemma {:induction false} PadOrder(m: int, n: int, w: nat)
    requires 0 <= m < Pow10(w) && 0 <= n < Pow10(w)
    ensures |Pad(m, w)| == |Pad(n, w)| == w && (Pad(m, w) == Pad(n, w) <==> m == n)
    ensures Strings.Leq(Pad(m, w), Pad(n, w)) <==> m <= n
  {
    if w > 0 {
      PadOrder(m / 10, n / 10, w - 1);
      var a, b := Pad(m / 10, w - 1), Pad(n / 10, w - 1);
      HeadsDecide(a, b, [Digit(m % 10)], [Digit(n % 10)]);
      assert Pad(m, w)[..w - 1] == a && Pad(n, w)[..w - 1] == b;
      assert Pad(m, w)[w - 1] == Digit(m % 10) && Pad(n, w)[w - 1] == Digit(n % 10);
      assert Strings.Leq([Digit(m % 10)], [Digit(n % 10)]) <==> m % 10 <= n % 10;
    }
  }

  /** Zero-padded text of a fixed width compares as the dates do. */
  lemma StringOrderIsDateOrder(a: Date, b: Date)
    requires IsCalendarDate(a) && IsCalendarDate(b)
    ensures Strings.Leq(Text(a), Text(b)) <==> !Before(b, a)
  {
    assert Pow10(2) == 100 && Pow10(4) == 10000;
    PadOrder(a.year, b.year, 4);
    PadOrder(a.month, b.month, 2);
    PadOrder(a.day, b.day, 2);
    var y, z := Pad(a.year, 4) + "-", Pad(b.year, 4) + "-";
    var m, n := Pad(a.month, 2) + "-", Pad(b.month, 2) + "-";
    HeadsDecide(Pad(a.year, 4), Pad(b.year, 4), "-", "-");
    HeadsDecide(Pad(a.month, 2), Pad(b.month, 2), "-", "-");
    HeadsDecide(y, z, m + Pad(a.day, 2), n + Pad(b.day, 2));
    HeadsDecide(m, n, Pad(a.day, 2), Pad(b.day, 2));
    assert y == z <==> a.year == b.year by { assert y[..4] == Pad(a.year, 4) && z[..4] == Pad(b.year, 4); }
    assert m == n <==> a.month == b.month by { assert m[..2] == Pad(a.month, 2) && n[..2] == Pad(b.month, 2); }
    assert Text(a) == y + (m + Pad(a.day, 2)) && Text(b) == z + (n + Pad(b.day, 2));
    assert Strings.Leq("-", "-");
  }
}
