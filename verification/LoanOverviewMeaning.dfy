/** The overview in terms of the rows that were put in: which loans count and why not, what is owed, what is owned, what is known. */
module LoanOverviewMeaning {
  import opened Wrappers
  import opened LoanOverview
  import S = Strings

  // ---- ids ----

  predicate SameLetter(c: char, d: char) {
    c == d || ('A' <= c <= 'Z' && (d as int) == (c as int) + 32) || ('A' <= d <= 'Z' && (c as int) == (d as int) + 32)
  }

  /** Two ids mean one record exactly if they differ only in the case of the letters A to Z. */
  lemma IdsFoldCase(a: string, b: string)
    ensures Key(a) == Key(b) <==> |a| == |b| && forall i | 0 <= i < |a| :: SameLetter(a[i], b[i])
  {
    if Key(a) == Key(b) {
      forall i | 0 <= i < |a| ensures SameLetter(a[i], b[i]) { assert Key(a)[i] == Key(b)[i]; }
    }
    if |a| == |b| && forall i | 0 <= i < |a| :: SameLetter(a[i], b[i]) {
      assert forall i | 0 <= i < |a| :: Key(a)[i] == Key(b)[i];
    }
  }

  // ---- refusals ----

  ghost predicate GoodManual(m: Manual, recordable: string -> bool) {
    && m.currency == "KRW"
    && match m.amount
       case None => m.asOfDate == None && m.source == None
       case Some(a) => 0 <= a < 100_000_000_000_000_000_000 && m.source == Some("manual") && m.asOfDate.Some? && recordable(m.asOfDate.value)
  }

  ghost predicate GoodVersion(v: int) { 1 <= v < 0x8000_0000 }

  ghost predicate GoodLoan(l: Observed) {
    && |l.fingerprint| == 64 && (forall c | c in l.fingerprint :: c in "0123456789abcdef")
    && l.id != "" && l.household != "" && l.owner != "" && GoodVersion(l.version) && l.capturedAt.Some?
    && 0 <= l.principal < 100_000_000_000_000_000_000
    && match l.mode
       case Replacement => l.target.Some? && l.target.value != "" && l.expected.Some? && GoodVersion(l.expected.value)
       case Reference => l.target == None && l.expected == None
       case Distinct => l.target == None && l.expected == None
  }

  /** Two rows of one record agree in all but the case of their ids. */
  ghost predicate SameRecord(a: Manual, b: Manual) {
    && Key(a.household) == Key(b.household) && Key(a.owner) == Key(b.owner) && a.visibility == b.visibility && a.version == b.version
    && a.kind == b.kind && a.amount == b.amount && a.currency == b.currency && a.asOfDate == b.asOfDate && a.source == b.source
  }

  lemma FingerprintShape(s: string)
    ensures IsFingerprint(s) <==> |s| == 64 && forall c | c in s :: c in "0123456789abcdef"
  {
    forall c: char ensures ('0' <= c <= '9' || 'a' <= c <= 'f') <==> c in "0123456789abcdef" {}
    forall i | 0 <= i < |s| ensures s[i] in s {}
  }

  /** An overview is refused exactly for a bad row, or for two rows of one id that disagree. */
  lemma RefusedIff(manuals: seq<Manual>, loans: seq<Observed>, recordable: string -> bool)
    ensures OverviewOf(manuals, loans, recordable).Ok? <==>
      && (forall m | m in manuals :: GoodManual(m, recordable)) && (forall l | l in loans :: GoodLoan(l))
      && (forall a, b | a in manuals && b in manuals && Key(a.id) == Key(b.id) :: SameRecord(a, b))
      && (forall a, b | a in loans && b in loans && Key(a.id) == Key(b.id) :: a == b)
  {
    ManualsRefusedIff(manuals, recordable);
    LoansRefusedIff(loans);
  }

  lemma ManualsRefusedIff(manuals: seq<Manual>, recordable: string -> bool)
    ensures ConsistentManuals(manuals, recordable) <==>
      && (forall m | m in manuals :: GoodManual(m, recordable))
      && (forall a, b | a in manuals && b in manuals && Key(a.id) == Key(b.id) :: SameRecord(a, b))
  {
    forall m: Manual ensures ValidManual(m, recordable) <==> GoodManual(m, recordable) {}
    forall a: Manual, b: Manual | Key(a.id) == Key(b.id) ensures Attributes(a) == Attributes(b) <==> SameRecord(a, b) {}
    if forall a, b | a in manuals && b in manuals && Key(a.id) == Key(b.id) :: SameRecord(a, b) {
      forall i, j | 0 <= i < |manuals| && 0 <= j < |manuals| && Key(manuals[i].id) == Key(manuals[j].id)
        ensures Attributes(manuals[i]) == Attributes(manuals[j])
      {
        assert manuals[i] in manuals && manuals[j] in manuals;
      }
    }
  }

  lemma LoansRefusedIff(loans: seq<Observed>)
    ensures ConsistentLoans(loans) <==>
      (forall l | l in loans :: GoodLoan(l)) && (forall a, b | a in loans && b in loans && Key(a.id) == Key(b.id) :: a == b)
  {
    forall l: Observed ensures ValidLoan(l) <==> GoodLoan(l) { FingerprintShape(l.fingerprint); }
    if forall a, b | a in loans && b in loans && Key(a.id) == Key(b.id) :: a == b {
      forall i, j | 0 <= i < |loans| && 0 <= j < |loans| && Key(loans[i].id) == Key(loans[j].id) ensures loans[i] == loans[j] {
        assert loans[i] in loans && loans[j] in loans;
      }
    }
  }

  // ---- rows and maps ----

  lemma LoanInMap(loans: seq<Observed>, l: Observed)
    requires ConsistentLoans(loans) && l in loans
    ensures Key(l.id) in LoansOf(loans) && LoansOf(loans)[Key(l.id)] == l
  {
    LoansMeaning(loans, Key(l.id));
    var i :| 0 <= i < |loans| && loans[i] == l;
  }

  lemma LoanFromMap(loans: seq<Observed>, k: string)
    requires ConsistentLoans(loans) && k in LoansOf(loans)
    ensures LoansOf(loans)[k] in loans && Key(LoansOf(loans)[k].id) == k
  {
    LoansMeaning(loans, k);
    var i :| 0 <= i < |loans| && Key(loans[i].id) == k;
  }

  lemma ManualInMap(manuals: seq<Manual>, recordable: string -> bool, m: Manual)
    requires ConsistentManuals(manuals, recordable) && m in manuals
    ensures Key(m.id) in ManualsOf(manuals) && ManualsOf(manuals)[Key(m.id)] == Attributes(m)
  {
    ManualsMeaning(manuals, recordable, Key(m.id));
    var i :| 0 <= i < |manuals| && manuals[i] == m;
  }

  lemma ManualFromMap(manuals: seq<Manual>, recordable: string -> bool, k: string) returns (m: Manual)
    requires ConsistentManuals(manuals, recordable) && k in ManualsOf(manuals)
    ensures m in manuals && Key(m.id) == k && ManualsOf(manuals)[k] == Attributes(m)
  {
    ManualsMeaning(manuals, recordable, k);
    var i :| 0 <= i < |manuals| && Key(manuals[i].id) == k;
    m := manuals[i];
  }

  // ---- which loans count ----

  ghost predicate Competes(l: Observed) { l.mode != Reference && (l.visibility == Private || l.sharingValid) }

  /** Another loan that competes observes the same account. */
  ghost predicate HasRival(loans: seq<Observed>, l: Observed) {
    exists j :: j in loans && Key(j.id) != Key(l.id) && Competes(j) && j.fingerprint == l.fingerprint
  }

  /** The record this replacement was agreed for: a loan of the same owner, household and visibility, in the agreed version. */
  ghost predicate AgreedFor(l: Observed, m: Manual) {
    && l.target.Some? && Key(m.id) == Key(l.target.value) && m.kind == Loan
    && Key(m.owner) == Key(l.owner) && Key(m.household) == Key(l.household) && m.visibility == l.visibility && l.expected == Some(m.version)
  }

  ghost predicate Contested(loans: seq<Observed>, l: Observed) {
    l.target.Some? &&
    exists j :: j in loans && Key(j.id) != Key(l.id) && Competes(j) && j.target.Some? && Key(j.target.value) == Key(l.target.value)
  }

  ghost predicate Replaceable(manuals: seq<Manual>, loans: seq<Observed>, l: Observed) {
    (exists m :: m in manuals && AgreedFor(l, m)) && !Contested(loans, l)
  }

  lemma RivalIffDoubled(loans: seq<Observed>, l: Observed)
    requires ConsistentLoans(loans) && l in loans
    ensures Key(l.id) in LoansOf(loans) && (HasRival(loans, l) <==> Doubled(LoansOf(loans), Key(l.id)))
  {
    LoanInMap(loans, l);
    if HasRival(loans, l) {
      var j :| j in loans && Key(j.id) != Key(l.id) && Competes(j) && j.fingerprint == l.fingerprint;
      LoanInMap(loans, j);
    }
    if Doubled(LoansOf(loans), Key(l.id)) {
      var k :| k in LoansOf(loans) && k != Key(l.id) && Eligible(LoansOf(loans)[k]) && LoansOf(loans)[k].fingerprint == l.fingerprint;
      LoanFromMap(loans, k);
    }
  }

  lemma ContestedIff(loans: seq<Observed>, l: Observed)
    requires ConsistentLoans(loans) && l in loans && l.target.Some?
    ensures Contested(loans, l) <==>
      exists k :: k in LoansOf(loans) && k != Key(l.id) && Eligible(LoansOf(loans)[k]) && Replaces(LoansOf(loans)[k], Key(l.target.value))
  {
    if Contested(loans, l) {
      var j :| j in loans && Key(j.id) != Key(l.id) && Competes(j) && j.target.Some? && Key(j.target.value) == Key(l.target.value);
      LoanInMap(loans, j);
    }
    forall k | k in LoansOf(loans) && k != Key(l.id) && Eligible(LoansOf(loans)[k]) && Replaces(LoansOf(loans)[k], Key(l.target.value))
      ensures Contested(loans, l)
    {
      LoanFromMap(loans, k);
    }
  }

  lemma AgreedIff(manuals: seq<Manual>, recordable: string -> bool, l: Observed)
    requires ConsistentManuals(manuals, recordable) && l.target.Some?
    ensures (exists m :: m in manuals && AgreedFor(l, m)) <==>
      var t := Key(l.target.value);
      t in ManualsOf(manuals) && AgreedFor(l, ManualsOf(manuals)[t])
  {
    var t := Key(l.target.value);
    forall m | m in manuals && Key(m.id) == t ensures t in ManualsOf(manuals) && ManualsOf(manuals)[t] == Attributes(m) {
      ManualInMap(manuals, recordable, m);
    }
    forall s: string ensures Key(Key(s)) == Key(s) {}
    if t in ManualsOf(manuals) { var m := ManualFromMap(manuals, recordable, t); assert AgreedFor(l, m) <==> AgreedFor(l, Attributes(m)); }
  }

  lemma ReplaceableIff(manuals: seq<Manual>, loans: seq<Observed>, recordable: string -> bool, l: Observed)
    requires ConsistentManuals(manuals, recordable) && ConsistentLoans(loans) && l in loans && l.target.Some?
    ensures Key(l.id) in LoansOf(loans) && LoansOf(loans)[Key(l.id)] == l
    ensures Replaceable(manuals, loans, l) <==> TargetStands(ManualsOf(manuals), LoansOf(loans), Key(l.id))
  {
    LoanInMap(loans, l);
    ContestedIff(loans, l);
    AgreedIff(manuals, recordable, l);
    var t := Key(l.target.value);
    if t in ManualsOf(manuals) {
      var m := ManualFromMap(manuals, recordable, t);
      assert AgreedFor(l, m) <==> AgreedFor(l, Attributes(m));
    }
  }

  /** Each shown loan is one of the rows, and carries exactly the first reason against it: expired sharing, reference only, a rival, a changed replacement. */
  lemma ReasonMeaning(manuals: seq<Manual>, loans: seq<Observed>, recordable: string -> bool, x: Shown)
    requires OverviewOf(manuals, loans, recordable).Ok? && x in OverviewOf(manuals, loans, recordable).value.loanItems
    ensures x.loan in loans
    ensures x.reason ==
      if x.loan.visibility == Household && !x.loan.sharingValid then Some(SharingExpired)
      else if x.loan.mode == Reference then Some(IsReference)
      else if HasRival(loans, x.loan) then Some(DuplicateVisibleLoan)
      else if x.loan.mode == Replacement && !Replaceable(manuals, loans, x.loan) then Some(ReplacementChanged)
      else None
  {
    var shown := OverviewOf(manuals, loans, recordable).value.loanItems;
    var i :| 0 <= i < |shown| && shown[i] == x;
    assert x.loan in FirstLoans(loans);
    FirstLoansAreKept(loans, x.loan);
    LoanFromMap(loans, Key(x.loan.id));
    RivalIffDoubled(loans, x.loan);
    if x.loan.mode == Replacement {
      assert ValidLoan(x.loan) by { var k :| 0 <= k < |loans| && loans[k] == x.loan; }
      ReplaceableIff(manuals, loans, recordable, x.loan);
    }
  }

  lemma {:induction false} FirstLoansDiffer(items: seq<Observed>, i: nat, j: nat)
    requires i < j < |FirstLoans(items)|
    ensures Key(FirstLoans(items)[i].id) != Key(FirstLoans(items)[j].id)
  {
    var rest, last := items[..|items| - 1], items[|items| - 1];
    if j < |FirstLoans(rest)| {
      FirstLoansDiffer(rest, i, j);
    } else {
      assert Key(FirstLoans(rest)[i].id) in LoansOf(rest);
    }
  }

  /** Every row is shown, and no loan twice. */
  lemma LoansShownOnce(manuals: seq<Manual>, loans: seq<Observed>, recordable: string -> bool)
    requires OverviewOf(manuals, loans, recordable).Ok?
    ensures var shown := OverviewOf(manuals, loans, recordable).value.loanItems;
      && (forall l | l in loans :: exists x :: x in shown && x.loan == l)
      && (forall i, j | 0 <= i < j < |shown| :: Key(shown[i].loan.id) != Key(shown[j].loan.id))
  {
    var shown := OverviewOf(manuals, loans, recordable).value.loanItems;
    forall l | l in loans ensures exists x :: x in shown && x.loan == l {
      LoanInMap(loans, l);
      FirstLoanOf(loans, Key(l.id));
      var i :| 0 <= i < |FirstLoans(loans)| && FirstLoans(loans)[i] == l;
      assert shown[i] in shown && shown[i].loan == l;
    }
    forall i, j | 0 <= i < j < |shown| ensures Key(shown[i].loan.id) != Key(shown[j].loan.id) { FirstLoansDiffer(loans, i, j); }
  }

  // ---- sums ----

  lemma {:induction false} SumAgrees(keys: set<string>, f: string -> int, g: string -> int)
    requires forall k | k in keys :: f(k) == g(k)
    ensures Sum(keys, f) == Sum(keys, g)
    decreases |keys|
  {
    if keys != {} {
      var k :| k in keys;
      SumTakes(keys, f, k);
      SumTakes(keys, g, k);
      SumAgrees(keys - {k}, f, g);
    }
  }

  /** The loans that count. */
  ghost function Counted(v: View): set<string> { set x | x in v.loanItems && x.reason == None :: Key(x.loan.id) }

  /** The records that a counted replacement takes the place of. */
  ghost function Replaced(v: View): set<string> {
    set x | x in v.loanItems && x.reason == None && x.loan.mode == Replacement && x.loan.target.Some? :: Key(x.loan.target.value)
  }

  /** Records of loans with a known amount that no counted replacement takes the place of. */
  ghost function KnownDebts(manuals: seq<Manual>, v: View): set<string> {
    set m | m in manuals && m.kind == Loan && m.amount.Some? && Key(m.id) !in Replaced(v) :: Key(m.id)
  }

  /** Records of anything else with a known amount. */
  ghost function KnownAssets(manuals: seq<Manual>, v: View): set<string> {
    set m | m in manuals && m.kind != Loan && m.amount.Some? && Key(m.id) !in Replaced(v) :: Key(m.id)
  }

  ghost predicate ShownAndMap(v: View, m: map<string, Manual>, l: map<string, Observed>) {
    && (forall x | x in v.loanItems :: Key(x.loan.id) in l && l[Key(x.loan.id)] == x.loan && x.reason == ReasonFor(m, l, Key(x.loan.id)))
    && (forall k | k in l :: exists x :: x in v.loanItems && x.loan == l[k] && Key(l[k].id) == k)
  }

  lemma ShownInMap(manuals: seq<Manual>, loans: seq<Observed>, recordable: string -> bool)
    requires OverviewOf(manuals, loans, recordable).Ok?
    ensures ShownAndMap(OverviewOf(manuals, loans, recordable).value, ManualsOf(manuals), LoansOf(loans))
  {
    var v, m, l := OverviewOf(manuals, loans, recordable).value, ManualsOf(manuals), LoansOf(loans);
    forall x | x in v.loanItems ensures Key(x.loan.id) in l && l[Key(x.loan.id)] == x.loan && x.reason == ReasonFor(m, l, Key(x.loan.id)) {
      var i :| 0 <= i < |v.loanItems| && v.loanItems[i] == x;
      assert x.loan in FirstLoans(loans);
      FirstLoansAreKept(loans, x.loan);
    }
    LoansShownOnce(manuals, loans, recordable);
    forall k | k in l ensures exists x :: x in v.loanItems && x.loan == l[k] && Key(l[k].id) == k {
      LoanFromMap(loans, k);
      assert l[k] in loans;
    }
  }

  lemma CountedIsIncluded(manuals: seq<Manual>, loans: seq<Observed>, recordable: string -> bool)
    requires OverviewOf(manuals, loans, recordable).Ok?
    ensures var v, m, l := OverviewOf(manuals, loans, recordable).value, ManualsOf(manuals), LoansOf(loans);
      Counted(v) == IncludedLoans(m, l) && Replaced(v) == Suppressed(m, l)
  {
    ShownInMap(manuals, loans, recordable);
    CountedSets(OverviewOf(manuals, loans, recordable).value, ManualsOf(manuals), LoansOf(loans));
  }

  lemma CountedSets(v: View, m: map<string, Manual>, l: map<string, Observed>)
    requires ShownAndMap(v, m, l)
    ensures Counted(v) == IncludedLoans(m, l) && Replaced(v) == Suppressed(m, l)
  {
    forall k | k in l ensures Included(m, l, k) <==> ReasonFor(m, l, k) == None {}
    forall k ensures k in Counted(v) <==> k in IncludedLoans(m, l) {
      if k in IncludedLoans(m, l) { var x :| x in v.loanItems && x.loan == l[k] && Key(l[k].id) == k; }
    }
    forall t ensures t in Replaced(v) <==> t in Suppressed(m, l) {
      if t in Suppressed(m, l) {
        var k :| k in l && Included(m, l, k) && l[k].mode == Replacement && l[k].target.Some? && Key(l[k].target.value) == t;
        var x :| x in v.loanItems && x.loan == l[k] && Key(l[k].id) == k;
      }
    }
  }

  /** The records that no included replacement takes the place of, and of these the assets and the loans. */
  ghost function Effective(m: map<string, Manual>, l: map<string, Observed>): set<string> { m.Keys - Suppressed(m, l) }

  ghost function Owned(m: map<string, Manual>, l: map<string, Observed>): set<string> { AssetKeys(m, Effective(m, l)) }

  ghost function Owed(m: map<string, Manual>, l: map<string, Observed>): set<string> { Effective(m, l) - Owned(m, l) }

  lemma KnownSets(manuals: seq<Manual>, loans: seq<Observed>, recordable: string -> bool)
    requires OverviewOf(manuals, loans, recordable).Ok?
    ensures var v, m, l := OverviewOf(manuals, loans, recordable).value, ManualsOf(manuals), LoansOf(loans);
      KnownAssets(manuals, v) == KnownOf(m, Owned(m, l)) && KnownDebts(manuals, v) == KnownOf(m, Owed(m, l))
  {
    var v, m, l := OverviewOf(manuals, loans, recordable).value, ManualsOf(manuals), LoansOf(loans);
    CountedIsIncluded(manuals, loans, recordable);
    RowsInMap(manuals, recordable);
    KnownSetsOf(manuals, v, m, Suppressed(m, l));
  }

  lemma KnownSetsOf(manuals: seq<Manual>, v: View, m: map<string, Manual>, gone: set<string>)
    requires gone == Replaced(v)
    requires RowsAndMap(manuals, m)
    ensures KnownAssets(manuals, v) == KnownOf(m, AssetKeys(m, m.Keys - gone))
    ensures KnownDebts(manuals, v) == KnownOf(m, m.Keys - gone - AssetKeys(m, m.Keys - gone))
  {
    forall k ensures k in KnownAssets(manuals, v) <==> k in KnownOf(m, AssetKeys(m, m.Keys - gone)) {}
    forall k ensures k in KnownDebts(manuals, v) <==> k in KnownOf(m, m.Keys - gone - AssetKeys(m, m.Keys - gone)) {}
  }

  ghost predicate AmountsAre(manuals: seq<Manual>, amount: string -> int) {
    forall m | m in manuals && m.amount.Some? :: amount(Key(m.id)) == m.amount.value
  }

  ghost predicate PrincipalsAre(loans: seq<Observed>, principal: string -> int) { forall l | l in loans :: principal(Key(l.id)) == l.principal }

  lemma SumOfAmounts(manuals: seq<Manual>, recordable: string -> bool, keys: set<string>, amount: string -> int)
    requires ConsistentManuals(manuals, recordable) && AmountsAre(manuals, amount)
    requires forall k | k in keys :: Known(ManualsOf(manuals), k)
    ensures Sum(keys, AmountOf(ManualsOf(manuals))) == Sum(keys, amount)
  {
    forall k | k in keys ensures AmountOf(ManualsOf(manuals))(k) == amount(k) {
      var m := ManualFromMap(manuals, recordable, k);
    }
    SumAgrees(keys, AmountOf(ManualsOf(manuals)), amount);
  }

  lemma SumOfPrincipals(loans: seq<Observed>, keys: set<string>, principal: string -> int)
    requires ConsistentLoans(loans) && PrincipalsAre(loans, principal) && keys <= LoansOf(loans).Keys
    ensures Sum(keys, PrincipalOf(LoansOf(loans))) == Sum(keys, principal)
  {
    forall k | k in keys ensures PrincipalOf(LoansOf(loans))(k) == principal(k) { LoanFromMap(loans, k); }
    SumAgrees(keys, PrincipalOf(LoansOf(loans)), principal);
  }

  /** The totals, given what is known of either side, how many loans count and how many are left open. */
  ghost predicate Concludes(t: Totals, assets: Completeness, debts: Completeness, counts: bool, opens: nat, nothing: bool) {
    && t.unresolved == opens && t.assets == assets
    && t.debts == (if opens > 0 then Partial else if debts == Empty && counts then Complete else debts)
    && (t.netAssets.Some? <==> t.assets == Complete && t.debts == Complete)
    && (t.netAssets.Some? ==> t.grossAssets.Some? && t.debt.Some? && t.netAssets.value == t.grossAssets.value - t.debt.value)
    && t.completeness == if nothing && !counts && opens == 0 then Empty else if t.netAssets.Some? then Complete else Partial
  }

  lemma KnownMeansSome(m: map<string, Manual>, keys: set<string>)
    ensures CompletenessOf(m, keys) == Complete ==> Value(m, keys).Some?
  {}

  /** The parts that the totals are combined from. */
  datatype Parts = Parts(assets: Option<int>, assetsKnown: Completeness, debt: Option<int>, debtKnown: Completeness, observed: Option<int>,
                         empty: bool, dates: Dates, unresolved: nat)

  ghost function PartsOf(m: map<string, Manual>, l: map<string, Observed>): Parts {
    Parts(Value(m, Owned(m, l)), CompletenessOf(m, Owned(m, l)), Value(m, Owed(m, l)), CompletenessOf(m, Owed(m, l)), ObservedDebt(m, l),
          Effective(m, l) == {}, DatesIn(m, Effective(m, l), S.Listing(DatesOf(m, Effective(m, l)))), |Unresolved(l, IncludedLoans(m, l))|)
  }

  lemma OverviewCombines(m: map<string, Manual>, l: map<string, Observed>, p: Parts)
    requires p == PartsOf(m, l)
    ensures Overview(m, l) == Combine(p.assets, p.assetsKnown, p.debt, p.debtKnown, p.observed, p.empty, p.dates, p.unresolved)
  {}

  lemma PartsAreKnown(m: map<string, Manual>, l: map<string, Observed>, p: Parts)
    requires p == PartsOf(m, l)
    ensures (p.assetsKnown == Complete ==> p.assets.Some?) && (p.debtKnown == Complete ==> p.debt.Some?)
  {
    KnownMeansSome(m, Owned(m, l));
    KnownMeansSome(m, Owed(m, l));
  }

  /** What the parts come to. */
  ghost predicate Amounts(t: Totals, p: Parts) {
    && t.grossAssets == p.assets
    && t.debt == (if p.observed.None? then p.debt else Some((if p.debt.Some? then p.debt.value else 0) + p.observed.value))
    && t.dates == (if p.observed.None? then p.dates else p.dates.(common := None))
    && Concludes(t, p.assetsKnown, p.debtKnown, p.observed.Some?, p.unresolved, p.empty)
  }

  lemma CombineMeans(p: Parts, t: Totals)
    requires (p.assetsKnown == Complete ==> p.assets.Some?) && (p.debtKnown == Complete ==> p.debt.Some?)
    requires t == Combine(p.assets, p.assetsKnown, p.debt, p.debtKnown, p.observed, p.empty, p.dates, p.unresolved)
    ensures Amounts(t, p)
  {}

  lemma OverviewMeans(m: map<string, Manual>, l: map<string, Observed>, p: Parts)
    requires p == PartsOf(m, l)
    ensures Amounts(Overview(m, l), p)
  {
    PartsAreKnown(m, l, p);
    OverviewCombines(m, l, p);
    CombineMeans(p, Overview(m, l));
  }

  lemma DebtOfSummary(manuals: seq<Manual>, loans: seq<Observed>, recordable: string -> bool, v: View, owed: Option<int>, observed: Option<int>)
    requires OverviewOf(manuals, loans, recordable) == Ok(v)
    requires owed == Value(ManualsOf(manuals), Owed(ManualsOf(manuals), LoansOf(loans)))
    requires observed == ObservedDebt(ManualsOf(manuals), LoansOf(loans))
    ensures v.summary.debt == if observed.None? then owed else Some((if owed.Some? then owed.value else 0) + observed.value)
  {
    DebtOfOverview(ManualsOf(manuals), LoansOf(loans), owed, observed);
  }

  lemma DebtOfOverview(m: map<string, Manual>, l: map<string, Observed>, owed: Option<int>, observed: Option<int>)
    requires owed == Value(m, Owed(m, l)) && observed == ObservedDebt(m, l)
    ensures Overview(m, l).debt == if observed.None? then owed else Some((if owed.Some? then owed.value else 0) + observed.value)
  {
    OverviewMeans(m, l, PartsOf(m, l));
    DebtOfParts(Overview(m, l), PartsOf(m, l), owed, observed);
  }

  lemma DebtOfParts(t: Totals, p: Parts, owed: Option<int>, observed: Option<int>)
    requires Amounts(t, p) && p.debt == owed && p.observed == observed
    ensures t.debt == if observed.None? then owed else Some((if owed.Some? then owed.value else 0) + observed.value)
  {}

  lemma DebtChoice(counted: set<string>, debt: Option<int>, owed: Option<int>, observed: Option<int>, more: int)
    requires observed == if counted == {} then None else Some(more)
    requires debt == if observed.None? then owed else Some((if owed.Some? then owed.value else 0) + observed.value)
    ensures debt == if counted == {} then owed else Some((if owed.Some? then owed.value else 0) + more)
  {}

  lemma ObservedDebtIs(m: map<string, Manual>, l: map<string, Observed>, included: set<string>, more: int)
    requires included == IncludedLoans(m, l) && more == Sum(included, PrincipalOf(l))
    ensures ObservedDebt(m, l) == if included == {} then None else Some(more)
  {}

  lemma OwedValue(manuals: seq<Manual>, loans: seq<Observed>, recordable: string -> bool, amount: string -> int)
    requires OverviewOf(manuals, loans, recordable).Ok? && AmountsAre(manuals, amount)
    ensures var v, m, l := OverviewOf(manuals, loans, recordable).value, ManualsOf(manuals), LoansOf(loans);
      Value(m, Owed(m, l)) == if KnownDebts(manuals, v) == {} then None else Some(Sum(KnownDebts(manuals, v), amount))
  {
    KnownSets(manuals, loans, recordable);
    SumOfAmounts(manuals, recordable, KnownDebts(manuals, OverviewOf(manuals, loans, recordable).value), amount);
  }

  lemma ObservedOfView(manuals: seq<Manual>, loans: seq<Observed>, recordable: string -> bool, principal: string -> int, v: View, more: int)
    returns (observed: Option<int>)
    requires OverviewOf(manuals, loans, recordable) == Ok(v) && PrincipalsAre(loans, principal) && more == Sum(Counted(v), principal)
    ensures observed == ObservedDebt(ManualsOf(manuals), LoansOf(loans))
    ensures observed == if Counted(v) == {} then None else Some(more)
    ensures Counted(v) == {} ==> more == 0
  {
    var m, l := ManualsOf(manuals), LoansOf(loans);
    if Counted(v) == {} { SumOfNone(Counted(v), principal); }
    CountedIsIncluded(manuals, loans, recordable);
    SumOfPrincipals(loans, IncludedLoans(m, l), principal);
    ObservedDebtIs(m, l, Counted(v), more);
    observed := ObservedDebt(m, l);
  }

  lemma OwedRows(manuals: seq<Manual>, loans: seq<Observed>, recordable: string -> bool, amount: string -> int, total: int) returns (owed: Option<int>)
    requires OverviewOf(manuals, loans, recordable).Ok? && AmountsAre(manuals, amount)
    requires total == Sum(KnownDebts(manuals, OverviewOf(manuals, loans, recordable).value), amount)
    ensures owed == Value(ManualsOf(manuals), Owed(ManualsOf(manuals), LoansOf(loans)))
    ensures owed == if KnownDebts(manuals, OverviewOf(manuals, loans, recordable).value) == {} then None else Some(total)
    ensures KnownDebts(manuals, OverviewOf(manuals, loans, recordable).value) == {} ==> total == 0
  {
    if KnownDebts(manuals, OverviewOf(manuals, loans, recordable).value) == {} {
      SumOfNone(KnownDebts(manuals, OverviewOf(manuals, loans, recordable).value), amount);
    }
    OwedValue(manuals, loans, recordable, amount);
    owed := Value(ManualsOf(manuals), Owed(ManualsOf(manuals), LoansOf(loans)));
  }

  lemma SumOfNone(keys: set<string>, f: string -> int)
    requires keys == {}
    ensures Sum(keys, f) == 0
  {}

  lemma DebtAdds(known: set<string>, counted: set<string>, debt: Option<int>, owed: Option<int>, manual: int, observed: int)
    requires owed == if known == {} then None else Some(manual)
    requires debt == if counted == {} then owed else Some((if owed.Some? then owed.value else 0) + observed)
    requires (counted == {} ==> observed == 0) && (known == {} ==> manual == 0)
    ensures debt == if known == {} && counted == {} then None else Some(manual + observed)
  {}

  /** The debt is what the remaining manual loans with known amounts come to, plus the principal of the loans that count; unknown if there is neither. */
  lemma DebtIsWhatIsOwed(manuals: seq<Manual>, loans: seq<Observed>, recordable: string -> bool, amount: string -> int, principal: string -> int,
                         v: View, manual: int, observed: int)
    requires OverviewOf(manuals, loans, recordable) == Ok(v) && AmountsAre(manuals, amount) && PrincipalsAre(loans, principal)
    requires manual == Sum(KnownDebts(manuals, v), amount) && observed == Sum(Counted(v), principal)
    ensures v.summary.debt == if KnownDebts(manuals, v) == {} && Counted(v) == {} then None else Some(manual + observed)
  {
    var owed := OwedRows(manuals, loans, recordable, amount, manual);
    CountedDebt(manuals, loans, recordable, principal, v, owed, observed);
    DebtAdds(KnownDebts(manuals, v), Counted(v), v.summary.debt, owed, manual, observed);
  }

  lemma CountedDebt(manuals: seq<Manual>, loans: seq<Observed>, recordable: string -> bool, principal: string -> int, v: View,
                    owed: Option<int>, observed: int)
    requires OverviewOf(manuals, loans, recordable) == Ok(v) && PrincipalsAre(loans, principal) && observed == Sum(Counted(v), principal)
    requires owed == Value(ManualsOf(manuals), Owed(ManualsOf(manuals), LoansOf(loans)))
    ensures v.summary.debt == if Counted(v) == {} then owed else Some((if owed.Some? then owed.value else 0) + observed)
    ensures Counted(v) == {} ==> observed == 0
  {
    var more := ObservedOfView(manuals, loans, recordable, principal, v, observed);
    DebtOfSummary(manuals, loans, recordable, v, owed, more);
    DebtChoice(Counted(v), v.summary.debt, owed, more, observed);
  }

  /** The assets are what the other records with known amounts come to; unknown if there is none. */
  lemma AssetsAreWhatIsOwned(manuals: seq<Manual>, loans: seq<Observed>, recordable: string -> bool, amount: string -> int)
    requires OverviewOf(manuals, loans, recordable).Ok? && AmountsAre(manuals, amount)
    ensures var v := OverviewOf(manuals, loans, recordable).value;
      v.summary.grossAssets == if KnownAssets(manuals, v) == {} then None else Some(Sum(KnownAssets(manuals, v), amount))
  {
    var v := OverviewOf(manuals, loans, recordable).value;
    KnownSets(manuals, loans, recordable);
    SumOfAmounts(manuals, recordable, KnownAssets(manuals, v), amount);
  }

  // ---- what is known ----

  ghost predicate Remains(manuals: seq<Manual>, v: View, m: Manual) { m in manuals && Key(m.id) !in Replaced(v) }

  ghost predicate OnSide(manuals: seq<Manual>, v: View, debts: bool, x: Manual) { Remains(manuals, v, x) && (x.kind == Loan <==> debts) }

  /** Nothing of this side remains; or all that remains has an amount; or part of it. */
  ghost predicate SideIs(manuals: seq<Manual>, v: View, debts: bool, c: Completeness) {
    c == if !exists m :: OnSide(manuals, v, debts, m) then Empty
         else if forall m | OnSide(manuals, v, debts, m) :: m.amount.Some? then Complete else Partial
  }

  /** Loans left open: those that neither count nor are for reference only. */
  ghost function Open(v: View): set<string> { set x | x in v.loanItems && x.reason != None && x.loan.mode != Reference :: Key(x.loan.id) }

  lemma SidesAre(manuals: seq<Manual>, loans: seq<Observed>, recordable: string -> bool)
    requires OverviewOf(manuals, loans, recordable).Ok?
    ensures var v, m, l := OverviewOf(manuals, loans, recordable).value, ManualsOf(manuals), LoansOf(loans);
      && SideIs(manuals, v, false, CompletenessOf(m, Owned(m, l))) && SideIs(manuals, v, true, CompletenessOf(m, Owed(m, l)))
      && (Effective(m, l) == {} <==> !exists x :: Remains(manuals, v, x))
  {
    var v, m, l := OverviewOf(manuals, loans, recordable).value, ManualsOf(manuals), LoansOf(loans);
    CountedIsIncluded(manuals, loans, recordable);
    RowsInMap(manuals, recordable);
    SidesOf(manuals, v, m, m.Keys - Suppressed(m, l));
    SomethingRemains(manuals, v, m);
  }

  lemma SidesOf(manuals: seq<Manual>, v: View, m: map<string, Manual>, effective: set<string>)
    requires RowsAndMap(manuals, m) && effective == m.Keys - Replaced(v)
    ensures SideIs(manuals, v, false, CompletenessOf(m, AssetKeys(m, effective)))
    ensures SideIs(manuals, v, true, CompletenessOf(m, effective - AssetKeys(m, effective)))
  {
    assert AssetKeys(m, effective) == set k | k in m && k !in Replaced(v) && (m[k].kind == Loan <==> false);
    assert effective - AssetKeys(m, effective) == set k | k in m && k !in Replaced(v) && (m[k].kind == Loan <==> true);
    SideOf(manuals, v, m, AssetKeys(m, effective), false);
    SideOf(manuals, v, m, effective - AssetKeys(m, effective), true);
  }

  ghost predicate RowsAndMap(manuals: seq<Manual>, m: map<string, Manual>) {
    && (forall x | x in manuals :: Key(x.id) in m && m[Key(x.id)] == Attributes(x))
    && (forall k | k in m :: exists x :: x in manuals && Key(x.id) == k && m[k] == Attributes(x))
  }

  lemma RowsInMap(manuals: seq<Manual>, recordable: string -> bool)
    requires ConsistentManuals(manuals, recordable)
    ensures RowsAndMap(manuals, ManualsOf(manuals))
  {
    var m := ManualsOf(manuals);
    forall x | x in manuals ensures Key(x.id) in m && m[Key(x.id)] == Attributes(x) { ManualInMap(manuals, recordable, x); }
    forall k | k in m ensures exists x :: x in manuals && Key(x.id) == k && m[k] == Attributes(x) {
      var x := ManualFromMap(manuals, recordable, k);
    }
  }

  lemma SomethingRemains(manuals: seq<Manual>, v: View, m: map<string, Manual>)
    requires RowsAndMap(manuals, m)
    ensures m.Keys - Replaced(v) == {} <==> !exists x :: Remains(manuals, v, x)
  {
    if exists x :: Remains(manuals, v, x) {
      var x :| Remains(manuals, v, x);
      assert Key(x.id) in m.Keys - Replaced(v);
    }
    if m.Keys - Replaced(v) != {} {
      var k :| k in m.Keys - Replaced(v);
      var x :| x in manuals && Key(x.id) == k;
      assert Remains(manuals, v, x);
    }
  }

  lemma SideOf(manuals: seq<Manual>, v: View, m: map<string, Manual>, keys: set<string>, debts: bool)
    requires RowsAndMap(manuals, m)
    requires keys == set k | k in m && k !in Replaced(v) && (m[k].kind == Loan <==> debts)
    ensures SideIs(manuals, v, debts, CompletenessOf(m, keys))
  {
    forall x | OnSide(manuals, v, debts, x) ensures Key(x.id) in keys && m[Key(x.id)].amount == x.amount {}
    forall k | k in keys ensures exists x :: OnSide(manuals, v, debts, x) && Key(x.id) == k && x.amount == m[k].amount {
      var x :| x in manuals && Key(x.id) == k && m[k] == Attributes(x);
      assert OnSide(manuals, v, debts, x);
    }
    SideFrom(manuals, v, m, keys, debts);
  }

  lemma SideFrom(manuals: seq<Manual>, v: View, m: map<string, Manual>, keys: set<string>, debts: bool)
    requires keys <= m.Keys
    requires forall x | OnSide(manuals, v, debts, x) :: Key(x.id) in keys && m[Key(x.id)].amount == x.amount
    requires forall k | k in keys :: exists x :: OnSide(manuals, v, debts, x) && Key(x.id) == k && x.amount == m[k].amount
    ensures SideIs(manuals, v, debts, CompletenessOf(m, keys))
  {
    if forall x | OnSide(manuals, v, debts, x) :: x.amount.Some? {
      forall k | k in keys ensures k in KnownOf(m, keys) {
        var x :| OnSide(manuals, v, debts, x) && Key(x.id) == k && x.amount == m[k].amount;
      }
    } else {
      var x :| OnSide(manuals, v, debts, x) && x.amount.None?;
      assert Key(x.id) in keys && Key(x.id) !in KnownOf(m, keys);
    }
    if keys != {} { var k :| k in keys; }
  }

  lemma OpenIsUnresolved(manuals: seq<Manual>, loans: seq<Observed>, recordable: string -> bool)
    requires OverviewOf(manuals, loans, recordable).Ok?
    ensures var v, m, l := OverviewOf(manuals, loans, recordable).value, ManualsOf(manuals), LoansOf(loans);
      Open(v) == Unresolved(l, IncludedLoans(m, l))
  {
    ShownInMap(manuals, loans, recordable);
    OpenSets(OverviewOf(manuals, loans, recordable).value, ManualsOf(manuals), LoansOf(loans));
  }

  lemma OpenSets(v: View, m: map<string, Manual>, l: map<string, Observed>)
    requires ShownAndMap(v, m, l)
    ensures Open(v) == Unresolved(l, IncludedLoans(m, l))
  {
    forall k | k in l ensures Included(m, l, k) <==> ReasonFor(m, l, k) == None {}
    forall k | k in Unresolved(l, IncludedLoans(m, l)) ensures k in Open(v) {
      var x :| x in v.loanItems && x.loan == l[k] && Key(l[k].id) == k;
    }
  }

  lemma ConcludesOf(m: map<string, Manual>, l: map<string, Observed>, assets: Completeness, debts: Completeness, counts: bool, opens: nat, nothing: bool)
    requires assets == CompletenessOf(m, Owned(m, l)) && debts == CompletenessOf(m, Owed(m, l)) && nothing == (Effective(m, l) == {})
    requires counts == (IncludedLoans(m, l) != {}) && opens == |Unresolved(l, IncludedLoans(m, l))|
    ensures Concludes(Overview(m, l), assets, debts, counts, opens, nothing)
  {
    var p := PartsOf(m, l);
    OverviewMeans(m, l, p);
    assert p.observed.Some? == counts;
    PartsConclude(Overview(m, l), p, assets, debts, counts, opens, nothing);
  }

  lemma PartsConclude(t: Totals, p: Parts, assets: Completeness, debts: Completeness, counts: bool, opens: nat, nothing: bool)
    requires Amounts(t, p) && p.assetsKnown == assets && p.debtKnown == debts
    requires p.observed.Some? == counts && p.unresolved == opens && p.empty == nothing
    ensures Concludes(t, assets, debts, counts, opens, nothing)
  {}

  lemma RowsConclude(manuals: seq<Manual>, loans: seq<Observed>, recordable: string -> bool, v: View, assets: Completeness, debts: Completeness,
                     counts: bool, opens: nat, nothing: bool)
    requires OverviewOf(manuals, loans, recordable) == Ok(v) && SideIs(manuals, v, false, assets) && SideIs(manuals, v, true, debts)
    requires counts == (Counted(v) != {}) && opens == |Open(v)| && nothing == !exists x :: Remains(manuals, v, x)
    ensures var m, l := ManualsOf(manuals), LoansOf(loans);
      && assets == CompletenessOf(m, Owned(m, l)) && debts == CompletenessOf(m, Owed(m, l)) && nothing == (Effective(m, l) == {})
      && counts == (IncludedLoans(m, l) != {}) && opens == |Unresolved(l, IncludedLoans(m, l))|
  {
    SidesAre(manuals, loans, recordable);
    CountedIsIncluded(manuals, loans, recordable);
    OpenIsUnresolved(manuals, loans, recordable);
  }

  /**
   * Both sides say whether they are fully known; a loan left open makes the debts partial, and a counted loan alone makes
   * them complete. The net is given exactly if both sides are complete, and the whole is empty exactly if nothing is there.
   */
  lemma CompletenessMeaning(manuals: seq<Manual>, loans: seq<Observed>, recordable: string -> bool, v: View, assets: Completeness, debts: Completeness,
                            counts: bool, opens: nat, nothing: bool)
    requires OverviewOf(manuals, loans, recordable) == Ok(v) && SideIs(manuals, v, false, assets) && SideIs(manuals, v, true, debts)
    requires counts == (Counted(v) != {}) && opens == |Open(v)| && nothing == !exists x :: Remains(manuals, v, x)
    ensures Concludes(v.summary, assets, debts, counts, opens, nothing)
  {
    RowsConclude(manuals, loans, recordable, v, assets, debts, counts, opens, nothing);
    ConcludesOf(ManualsOf(manuals), LoansOf(loans), assets, debts, counts, opens, nothing);
  }

  // ---- dates ----

  ghost predicate DateRemains(manuals: seq<Manual>, v: View, d: string) {
    exists m :: Remains(manuals, v, m) && m.asOfDate == Some(d)
  }

  /** The oldest and newest of the remaining dates, whether there are several, and the common date of records that are all known when no loan counts. */
  lemma DatesOfOverview(manuals: seq<Manual>, loans: seq<Observed>, recordable: string -> bool, v: View)
    requires OverviewOf(manuals, loans, recordable) == Ok(v)
    ensures var d := v.summary.dates;
      && (d.oldest.Some? <==> d.newest.Some?) && (d.oldest.Some? <==> exists x :: DateRemains(manuals, v, x))
      && (d.oldest.Some? ==> DateRemains(manuals, v, d.oldest.value) && DateRemains(manuals, v, d.newest.value))
      && (forall x | DateRemains(manuals, v, x) :: S.Leq(d.oldest.value, x) && S.Leq(x, d.newest.value))
      && (d.mixed <==> d.oldest != d.newest)
      && (d.common.Some? <==> Counted(v) == {} && d.oldest.Some? && d.oldest == d.newest && forall m | Remains(manuals, v, m) :: m.amount.Some?)
      && (d.common.Some? ==> d.common == d.oldest)
  {
    var m, l := ManualsOf(manuals), LoansOf(loans);
    var effective := m.Keys - Suppressed(m, l);
    CountedIsIncluded(manuals, loans, recordable);
    RemainingDates(manuals, loans, recordable);
    SpreadOfDates(m, effective, v.summary.dates, Counted(v) == {});
  }

  /** The dates of some records, of which the common one is given only while no loan counts. */
  lemma SpreadOfDates(m: map<string, Manual>, effective: set<string>, d: Dates, alone: bool)
    requires var given := DatesIn(m, effective, S.Listing(DatesOf(m, effective))); d == if alone then given else given.(common := None)
    ensures var all := DatesOf(m, effective);
      && (d.oldest.Some? <==> d.newest.Some?) && (d.oldest.Some? <==> all != {})
      && (d.oldest.Some? ==> d.oldest.value in all && d.newest.value in all)
      && (forall x | x in all :: S.Leq(d.oldest.value, x) && S.Leq(x, d.newest.value))
      && (d.mixed <==> d.oldest != d.newest)
      && (d.common.Some? <==> alone && d.oldest.Some? && d.oldest == d.newest && KnownOf(m, effective) == effective)
      && (d.common.Some? ==> d.common == d.oldest)
  {
    DatesMeaning(m, effective);
    SeveralDates(DatesOf(m, effective));
  }

  lemma SeveralDates(all: set<string>)
    ensures var listing := S.Listing(all); |listing| > 1 ==> listing[0] != listing[|listing| - 1]
    ensures all == {} <==> S.Listing(all) == []
  {
    S.EmptyElems(S.Listing(all));
  }

  lemma RemainingDates(manuals: seq<Manual>, loans: seq<Observed>, recordable: string -> bool)
    requires OverviewOf(manuals, loans, recordable).Ok?
    ensures var v, m, l := OverviewOf(manuals, loans, recordable).value, ManualsOf(manuals), LoansOf(loans);
      var effective := m.Keys - Suppressed(m, l);
      && (forall d :: d in DatesOf(m, effective) <==> DateRemains(manuals, v, d))
      && (KnownOf(m, effective) == effective <==> forall x | Remains(manuals, v, x) :: x.amount.Some?)
  {
    var v, m, l := OverviewOf(manuals, loans, recordable).value, ManualsOf(manuals), LoansOf(loans);
    var effective := m.Keys - Suppressed(m, l);
    CountedIsIncluded(manuals, loans, recordable);
    forall x | x in manuals ensures Key(x.id) in m && m[Key(x.id)] == Attributes(x) { ManualInMap(manuals, recordable, x); }
    forall k | k in effective ensures exists x :: Remains(manuals, v, x) && Key(x.id) == k && m[k] == Attributes(x) {
      var x := ManualFromMap(manuals, recordable, k);
      assert Remains(manuals, v, x);
    }
    forall d | DateRemains(manuals, v, d) ensures d in DatesOf(m, effective) {
      var x :| Remains(manuals, v, x) && x.asOfDate == Some(d);
      assert Key(x.id) in effective;
    }
    if KnownOf(m, effective) == effective {
      forall x | Remains(manuals, v, x) ensures x.amount.Some? { assert Key(x.id) in effective; }
    }
    if forall x | Remains(manuals, v, x) :: x.amount.Some? {
      forall k | k in effective ensures k in KnownOf(m, effective) { var x :| Remains(manuals, v, x) && Key(x.id) == k && m[k] == Attributes(x); }
    }
  }
}
