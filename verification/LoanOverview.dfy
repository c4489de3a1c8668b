/**
 * One household's manual records and bank observations of loans, added up without counting a debt twice.
 *
 * The program walks lists and fills maps; the simple form speaks of sets and cannot depend on any order. Ids are folded
 * to lower case over ASCII. A date is text, and whether it is a recordable one is a parameter.
 */
module LoanOverview {
  import opened Wrappers
  import S = Strings

  datatype Result<+T> = Ok(value: T) | RangeError

  datatype Kind = Account | Saving | Stock | Loan
  datatype Visibility = Private | Household
  datatype Mode = Reference | Distinct | Replacement
  datatype Completeness = Empty | Partial | Complete
  datatype Reason = IsReference | ReplacementChanged | DuplicateVisibleLoan | SharingExpired

  datatype Manual = Manual(id: string, household: string, owner: string, visibility: Visibility, version: int, kind: Kind,
                           amount: Option<int>, currency: string, asOfDate: Option<string>, source: Option<string>)

  /** `capturedAt` is the time that the text of capture parses to; `details` stands for that text and the other public fields. */
  datatype Observed = Observed(id: string, household: string, owner: string, visibility: Visibility, version: int, mode: Mode,
                               target: Option<string>, expected: Option<int>, principal: int, fingerprint: string,
                               sharingValid: bool, capturedAt: Option<int>, details: string)

  const MAX_KRW: int := 99_999_999_999_999_999_999
  const MAX_VERSION := 2_147_483_647

  function Lower(c: char): char { if 'A' <= c <= 'Z' then c - 'A' + 'a' else c }

  function Key(s: string): string { seq(|s|, i requires 0 <= i < |s| => Lower(s[i])) }

  // ---- records ----

  /** What two rows of one id must agree on. */
  function Attributes(m: Manual): Manual { m.(id := Key(m.id), household := Key(m.household), owner := Key(m.owner)) }

  predicate ValidManual(m: Manual, recordable: string -> bool) {
    && m.currency == "KRW"
    && (m.amount.None? ==> m.asOfDate.None? && m.source.None?)
    && (m.amount.Some? ==> 0 <= m.amount.value <= MAX_KRW && m.source == Some("manual") && m.asOfDate.Some? && recordable(m.asOfDate.value))
  }

  predicate IsFingerprint(s: string) { |s| == 64 && forall i | 0 <= i < 64 :: '0' <= s[i] <= '9' || 'a' <= s[i] <= 'f' }

  predicate ValidVersion(v: int) { 0 < v <= MAX_VERSION }

  predicate ValidLoan(l: Observed) {
    && IsFingerprint(l.fingerprint) && l.id != "" && l.household != "" && l.owner != "" && ValidVersion(l.version)
    && l.capturedAt.Some? && 0 <= l.principal <= MAX_KRW
    && if l.mode == Replacement then l.target.Some? && l.target.value != "" && l.expected.Some? && ValidVersion(l.expected.value)
       else l.target.None? && l.expected.None?
  }

  ghost predicate ConsistentManuals(items: seq<Manual>, recordable: string -> bool) {
    && (forall i | 0 <= i < |items| :: ValidManual(items[i], recordable))
    && forall i, j | 0 <= i < |items| && 0 <= j < |items| && Key(items[i].id) == Key(items[j].id) ::
         Attributes(items[i]) == Attributes(items[j])
  }

  ghost predicate ConsistentLoans(items: seq<Observed>) {
    && (forall i | 0 <= i < |items| :: ValidLoan(items[i]))
    && forall i, j | 0 <= i < |items| && 0 <= j < |items| && Key(items[i].id) == Key(items[j].id) :: items[i] == items[j]
  }

  function ManualsOf(items: seq<Manual>): map<string, Manual> {
    if items == [] then map[] else ManualsOf(items[..|items| - 1])[Key(items[|items| - 1].id) := Attributes(items[|items| - 1])]
  }

  function LoansOf(items: seq<Observed>): map<string, Observed> {
    if items == [] then map[] else LoansOf(items[..|items| - 1])[Key(items[|items| - 1].id) := items[|items| - 1]]
  }

  /** The first row of each id, as it was given. */
  function FirstManuals(items: seq<Manual>): seq<Manual> {
    if items == [] then []
    else
      var rest, last := items[..|items| - 1], items[|items| - 1];
      FirstManuals(rest) + if Key(last.id) in ManualsOf(rest) then [] else [last]
  }

  function FirstLoans(items: seq<Observed>): (r: seq<Observed>)
    ensures forall i | 0 <= i < |r| :: Key(r[i].id) in LoansOf(items)
  {
    if items == [] then []
    else
      var rest, last := items[..|items| - 1], items[|items| - 1];
      FirstLoans(rest) + if Key(last.id) in LoansOf(rest) then [] else [last]
  }

  // ---- the simple form ----

  predicate Eligible(l: Observed) { l.mode != Reference && (l.visibility == Private || l.sharingValid) }

  /** Another eligible loan over the same account. */
  predicate Doubled(loans: map<string, Observed>, k: string)
    requires k in loans
  {
    exists j | j in loans :: j != k && Eligible(loans[j]) && loans[j].fingerprint == loans[k].fingerprint
  }

  predicate Replaces(l: Observed, manual: string) { l.target.Some? && Key(l.target.value) == manual }

  /** The record a replacement was agreed for, unchanged since, and claimed by no other eligible loan. */
  predicate TargetStands(manuals: map<string, Manual>, loans: map<string, Observed>, k: string)
    requires k in loans && loans[k].target.Some?
  {
    var l, t := loans[k], Key(loans[k].target.value);
    && t in manuals && manuals[t].kind == Loan && manuals[t].owner == Key(l.owner) && manuals[t].household == Key(l.household)
    && manuals[t].visibility == l.visibility && l.expected == Some(manuals[t].version)
    && forall j | j in loans :: j != k && Eligible(loans[j]) ==> !Replaces(loans[j], t)
  }

  predicate Included(manuals: map<string, Manual>, loans: map<string, Observed>, k: string)
    requires k in loans
  {
    && Eligible(loans[k]) && !Doubled(loans, k)
    && (loans[k].mode == Replacement ==> loans[k].target.Some? && TargetStands(manuals, loans, k))
  }

  function IncludedLoans(manuals: map<string, Manual>, loans: map<string, Observed>): set<string> {
    set k | k in loans && Included(manuals, loans, k)
  }

  function Suppressed(manuals: map<string, Manual>, loans: map<string, Observed>): set<string> {
    set k | k in loans && Included(manuals, loans, k) && loans[k].mode == Replacement && loans[k].target.Some? :: Key(loans[k].target.value)
  }

  /** The sum of `f` over some keys, in whatever order. */
  ghost function Sum(keys: set<string>, f: string -> int): int
    decreases |keys|
  {
    if keys == {} then 0
    else
      var k :| k in keys;
      f(k) + Sum(keys - {k}, f)
  }

  lemma {:induction false} SumTakes(keys: set<string>, f: string -> int, k: string)
    requires k in keys
    ensures Sum(keys, f) == f(k) + Sum(keys - {k}, f)
    decreases |keys|
  {
    var c :| c in keys && Sum(keys, f) == f(c) + Sum(keys - {c}, f);
    if c != k {
      SumTakes(keys - {c}, f, k);
      SumTakes(keys - {k}, f, c);
      assert keys - {c} - {k} == keys - {k} - {c};
    }
  }

  lemma SumAdds(keys: set<string>, f: string -> int, k: string)
    requires k !in keys
    ensures Sum(keys + {k}, f) == Sum(keys, f) + f(k)
  {
    SumTakes(keys + {k}, f, k);
    assert keys + {k} - {k} == keys;
  }

  function AmountOf(manuals: map<string, Manual>): string -> int {
    k => if k in manuals && manuals[k].amount.Some? then manuals[k].amount.value else 0
  }

  function PrincipalOf(loans: map<string, Observed>): string -> int { k => if k in loans then loans[k].principal else 0 }

  datatype Totals = Totals(grossAssets: Option<int>, debt: Option<int>, netAssets: Option<int>, assets: Completeness, debts: Completeness,
                           completeness: Completeness, dates: Dates, unresolved: nat)

  /** What is known of the dates: the one common to all, the first, the last, and whether there are several. */
  datatype Dates = Dates(common: Option<string>, oldest: Option<string>, newest: Option<string>, mixed: bool)

  predicate Known(manuals: map<string, Manual>, k: string) { k in manuals && manuals[k].amount.Some? }

  function KnownOf(manuals: map<string, Manual>, keys: set<string>): set<string> { set k | k in keys && Known(manuals, k) }

  ghost function Value(manuals: map<string, Manual>, keys: set<string>): Option<int> {
    if KnownOf(manuals, keys) == {} then None else Some(Sum(KnownOf(manuals, keys), AmountOf(manuals)))
  }

  function CompletenessOf(manuals: map<string, Manual>, keys: set<string>): Completeness {
    if keys == {} then Empty else if KnownOf(manuals, keys) == keys then Complete else Partial
  }

  /** The manual totals with what the loans add; `observed` is their principal, if any is included. */
  function Combine(assets: Option<int>, assetsKnown: Completeness, debt: Option<int>, debtKnown: Completeness, observed: Option<int>,
                   empty: bool, dates: Dates, unresolved: nat): Totals
  {
    var total := if observed.None? then debt else Some((if debt.Some? then debt.value else 0) + observed.value);
    var known := if unresolved > 0 then Partial else if observed.Some? && debtKnown == Empty then Complete else debtKnown;
    var complete := assetsKnown == Complete && known == Complete;
    Totals(assets, total, if complete && assets.Some? && total.Some? then Some(assets.value - total.value) else None, assetsKnown, known,
           if empty && observed.None? && unresolved == 0 then Empty else if complete then Complete else Partial,
           if observed.None? then dates else dates.(common := None), unresolved)
  }

  function AssetKeys(manuals: map<string, Manual>, effective: set<string>): set<string> {
    set k | k in effective && k in manuals && manuals[k].kind != Loan
  }

  function DatesOf(manuals: map<string, Manual>, effective: set<string>): set<string> {
    set k | k in effective && k in manuals && manuals[k].asOfDate.Some? :: manuals[k].asOfDate.value
  }

  /** The dates of some records, given their ascending listing. */
  function DatesIn(manuals: map<string, Manual>, effective: set<string>, listing: seq<string>): Dates {
    Dates(if KnownOf(manuals, effective) == effective && |listing| == 1 then Some(listing[0]) else None,
          if listing == [] then None else Some(listing[0]), if listing == [] then None else Some(listing[|listing| - 1]), |listing| > 1)
  }

  /** The oldest and newest date are among the dates and bound them all; one of them is common only if there is no other. */
  lemma DatesMeaning(manuals: map<string, Manual>, effective: set<string>)
    ensures var all := DatesOf(manuals, effective);
            var d := DatesIn(manuals, effective, S.Listing(all));
            && (d.oldest.None? <==> all == {}) && (d.newest.None? <==> all == {})
            && (all != {} ==> d.oldest.value in all && d.newest.value in all)
            && (forall x | x in all :: S.Leq(d.oldest.value, x) && S.Leq(x, d.newest.value))
            && (d.common.Some? ==> all == {d.common.value}) && (d.mixed ==> d.oldest != d.newest)
  {
    var all := DatesOf(manuals, effective);
    var listing := S.Listing(all);
    S.EmptyElems(listing);
    assert forall x :: x in listing <==> x in S.Elems(listing);
    forall x | x in all ensures S.Leq(listing[0], x) && S.Leq(x, listing[|listing| - 1]) {
      var i :| 0 <= i < |listing| && listing[i] == x;
      S.LeqTotal(x, x);
    }
    if |listing| == 1 {
      forall x | x in all ensures x == listing[0] { assert x in listing; }
      assert all == {listing[0]};
    }
    if |listing| > 1 { assert listing[0] != listing[|listing| - 1]; }
  }

  function Unresolved(loans: map<string, Observed>, included: set<string>): set<string> {
    set k | k in loans && k !in included && loans[k].mode != Reference
  }

  /** The principal of the included loans, if there are any. */
  ghost function ObservedDebt(manuals: map<string, Manual>, loans: map<string, Observed>): Option<int> {
    var included := IncludedLoans(manuals, loans);
    if included == {} then None else Some(Sum(included, PrincipalOf(loans)))
  }

  /** What remains of the manual records, and what the included and unresolved loans make of it. */
  ghost function Overview(manuals: map<string, Manual>, loans: map<string, Observed>): Totals {
    var included := IncludedLoans(manuals, loans);
    var effective := manuals.Keys - Suppressed(manuals, loans);
    var assets := AssetKeys(manuals, effective);
    var debts := effective - assets;
    Combine(Value(manuals, assets), CompletenessOf(manuals, assets), Value(manuals, debts), CompletenessOf(manuals, debts),
            ObservedDebt(manuals, loans),
            effective == {}, DatesIn(manuals, effective, S.Listing(DatesOf(manuals, effective))), |Unresolved(loans, included)|)
  }

  function ReasonFor(manuals: map<string, Manual>, loans: map<string, Observed>, k: string): Option<Reason>
    requires k in loans
  {
    if loans[k].visibility == Household && !loans[k].sharingValid then Some(SharingExpired)
    else if loans[k].mode == Reference then Some(IsReference)
    else if Doubled(loans, k) then Some(DuplicateVisibleLoan)
    else if loans[k].mode == Replacement && !(loans[k].target.Some? && TargetStands(manuals, loans, k)) then Some(ReplacementChanged)
    else None
  }

  /** A loan as it is shown, with the reason why it does not count, if any. */
  datatype Shown = Shown(loan: Observed, reason: Option<Reason>)

  datatype View = View(manualItems: seq<Manual>, loanItems: seq<Shown>, summary: Totals)

  function ShownLoans(manuals: map<string, Manual>, loans: map<string, Observed>, items: seq<Observed>): (r: seq<Shown>)
    requires forall i | 0 <= i < |items| :: Key(items[i].id) in loans
    ensures |r| == |items|
    ensures forall i | 0 <= i < |r| :: r[i] == Shown(items[i], ReasonFor(manuals, loans, Key(items[i].id)))
  {
    seq(|items|, i requires 0 <= i < |items| => Shown(items[i], ReasonFor(manuals, loans, Key(items[i].id))))
  }

  ghost function OverviewOf(manuals: seq<Manual>, loans: seq<Observed>, recordable: string -> bool): Result<View> {
    if ConsistentManuals(manuals, recordable) && ConsistentLoans(loans)
    then
      var m, l := ManualsOf(manuals), LoansOf(loans);
      Ok(View(FirstManuals(manuals), ShownLoans(m, l, FirstLoans(loans)), Overview(m, l)))
    else RangeError
  }

  // ---- the lists as maps ----

  lemma {:induction false} ManualsMeaning(items: seq<Manual>, recordable: string -> bool, k: string)
    requires ConsistentManuals(items, recordable)
    ensures k in ManualsOf(items) <==> exists i :: 0 <= i < |items| && Key(items[i].id) == k
    ensures forall i | 0 <= i < |items| && Key(items[i].id) == k :: k in ManualsOf(items) && ManualsOf(items)[k] == Attributes(items[i])
  {
    if items != [] {
      var rest := items[..|items| - 1];
      ManualsMeaning(rest, recordable, k);
      assert forall i | 0 <= i < |rest| :: rest[i] == items[i];
      if Key(items[|items| - 1].id) != k && k in ManualsOf(rest) {
        var i :| 0 <= i < |rest| && Key(rest[i].id) == k;
        assert Key(items[i].id) == k;
      }
    }
  }

  lemma {:induction false} LoansMeaning(items: seq<Observed>, k: string)
    requires ConsistentLoans(items)
    ensures k in LoansOf(items) <==> exists i :: 0 <= i < |items| && Key(items[i].id) == k
    ensures forall i | 0 <= i < |items| && Key(items[i].id) == k :: k in LoansOf(items) && LoansOf(items)[k] == items[i]
  {
    if items != [] {
      var rest := items[..|items| - 1];
      LoansMeaning(rest, k);
      assert forall i | 0 <= i < |rest| :: rest[i] == items[i];
      if Key(items[|items| - 1].id) != k && k in LoansOf(rest) {
        var i :| 0 <= i < |rest| && Key(rest[i].id) == k;
        assert Key(items[i].id) == k;
      }
    }
  }

  /** The same rows, whatever their order and however often each is repeated. */
  ghost predicate SameRows<T(!new)>(a: seq<T>, b: seq<T>) { forall x :: x in a <==> x in b }

  lemma ManualsAgree(a: seq<Manual>, b: seq<Manual>, recordable: string -> bool)
    requires SameRows(a, b) && ConsistentManuals(a, recordable)
    ensures ConsistentManuals(b, recordable) && ManualsOf(a) == ManualsOf(b)
  {
    forall i | 0 <= i < |b| ensures ValidManual(b[i], recordable) { assert b[i] in a; }
    forall i, j | 0 <= i < |b| && 0 <= j < |b| && Key(b[i].id) == Key(b[j].id) ensures Attributes(b[i]) == Attributes(b[j]) {
      assert b[i] in a && b[j] in a;
    }
    forall k ensures k in ManualsOf(a) <==> k in ManualsOf(b)
      ensures k in ManualsOf(a) ==> ManualsOf(a)[k] == ManualsOf(b)[k]
    {
      ManualsMeaning(a, recordable, k);
      ManualsMeaning(b, recordable, k);
      if k in ManualsOf(a) { var i :| 0 <= i < |a| && Key(a[i].id) == k; assert a[i] in b; }
      if k in ManualsOf(b) { var i :| 0 <= i < |b| && Key(b[i].id) == k; assert b[i] in a; }
    }
  }

  lemma LoansAgree(a: seq<Observed>, b: seq<Observed>)
    requires SameRows(a, b) && ConsistentLoans(a)
    ensures ConsistentLoans(b) && LoansOf(a) == LoansOf(b)
  {
    forall i | 0 <= i < |b| ensures ValidLoan(b[i]) { assert b[i] in a; }
    forall i, j | 0 <= i < |b| && 0 <= j < |b| && Key(b[i].id) == Key(b[j].id) ensures b[i] == b[j] {
      assert b[i] in a && b[j] in a;
    }
    forall k ensures k in LoansOf(a) <==> k in LoansOf(b)
      ensures k in LoansOf(a) ==> LoansOf(a)[k] == LoansOf(b)[k]
    {
      LoansMeaning(a, k);
      LoansMeaning(b, k);
      if k in LoansOf(a) { var i :| 0 <= i < |a| && Key(a[i].id) == k; assert a[i] in b; }
      if k in LoansOf(b) { var i :| 0 <= i < |b| && Key(b[i].id) == k; assert b[i] in a; }
    }
  }

  lemma {:induction false} FirstLoanOf(items: seq<Observed>, k: string)
    requires ConsistentLoans(items) && k in LoansOf(items)
    ensures LoansOf(items)[k] in FirstLoans(items) && Key(LoansOf(items)[k].id) == k
  {
    var rest, last := items[..|items| - 1], items[|items| - 1];
    assert forall i | 0 <= i < |rest| :: rest[i] == items[i];
    if k in LoansOf(rest) {
      FirstLoanOf(rest, k);
      LoansMeaning(rest, k);
      var i :| 0 <= i < |rest| && Key(rest[i].id) == k;
      assert items[i] == rest[i];
    }
  }

  lemma {:induction false} FirstLoansAreKept(items: seq<Observed>, l: Observed)
    requires ConsistentLoans(items) && l in FirstLoans(items)
    ensures Key(l.id) in LoansOf(items) && LoansOf(items)[Key(l.id)] == l
  {
    var rest, last := items[..|items| - 1], items[|items| - 1];
    assert forall i | 0 <= i < |rest| :: rest[i] == items[i];
    if l in FirstLoans(rest) {
      FirstLoansAreKept(rest, l);
      LoansMeaning(rest, Key(l.id));
      var i :| 0 <= i < |rest| && Key(rest[i].id) == Key(l.id);
      assert items[i] == rest[i];
    }
  }

  lemma SameShown(manuals: map<string, Manual>, a: seq<Observed>, b: seq<Observed>, x: Shown)
    requires ConsistentLoans(a) && ConsistentLoans(b) && LoansOf(a) == LoansOf(b)
    requires x in ShownLoans(manuals, LoansOf(a), FirstLoans(a))
    ensures x in ShownLoans(manuals, LoansOf(b), FirstLoans(b))
  {
    var shown := ShownLoans(manuals, LoansOf(a), FirstLoans(a));
    var i :| 0 <= i < |shown| && shown[i] == x;
    assert x.loan in FirstLoans(a);
    FirstLoansAreKept(a, x.loan);
    FirstLoanOf(b, Key(x.loan.id));
    var j :| 0 <= j < |FirstLoans(b)| && FirstLoans(b)[j] == x.loan;
    assert ShownLoans(manuals, LoansOf(b), FirstLoans(b))[j] == x;
  }

  /** The same loans are shown, each with its reason, and the totals are the same. */
  ghost predicate SameView(a: Result<View>, b: Result<View>) {
    (a.Ok? <==> b.Ok?) &&
    (a.Ok? ==> a.value.summary == b.value.summary && S.Elems(a.value.loanItems) == S.Elems(b.value.loanItems))
  }

  /** Totals, refusals and the reasons shown depend on neither the order nor the repetition of the rows. */
  lemma OverviewIgnoresOrder(manuals: seq<Manual>, manuals': seq<Manual>, loans: seq<Observed>, loans': seq<Observed>, recordable: string -> bool)
    requires SameRows(manuals, manuals') && SameRows(loans, loans')
    ensures SameView(OverviewOf(manuals, loans, recordable), OverviewOf(manuals', loans', recordable))
  {
    if ConsistentManuals(manuals, recordable) {
      ManualsAgree(manuals, manuals', recordable);
    } else if ConsistentManuals(manuals', recordable) {
      ManualsAgree(manuals', manuals, recordable);
    }
    if ConsistentLoans(loans) { LoansAgree(loans, loans'); } else if ConsistentLoans(loans') { LoansAgree(loans', loans); }
    if ConsistentLoans(loans) {
      var m, l := ManualsOf(manuals), LoansOf(loans);
      forall x ensures x in ShownLoans(m, l, FirstLoans(loans)) <==> x in ShownLoans(m, l, FirstLoans(loans')) {
        if x in ShownLoans(m, l, FirstLoans(loans)) { SameShown(m, loans, loans', x); }
        if x in ShownLoans(m, l, FirstLoans(loans')) { SameShown(m, loans', loans, x); }
      }
    }
  }

  // ---- no debt is counted twice ----

  function Replacements(manuals: map<string, Manual>, loans: map<string, Observed>): set<string> {
    set k | k in loans && Included(manuals, loans, k) && loans[k].mode == Replacement
  }

  function TargetOf(loans: map<string, Observed>, k: string): string {
    if k in loans && loans[k].target.Some? then Key(loans[k].target.value) else ""
  }

  /**
   * Suppressed manual loans and included replacements are in one-to-one correspondence: each suppressed record is a
   * manual loan of the same owner, household and visibility, and is taken by one included replacement.
   */
  lemma SuppressionIsOneToOne(manuals: map<string, Manual>, loans: map<string, Observed>)
    ensures forall k | k in Replacements(manuals, loans) ::
              var t := TargetOf(loans, k);
              t in Suppressed(manuals, loans) && t in manuals && manuals[t].kind == Loan && manuals[t].owner == Key(loans[k].owner)
              && manuals[t].household == Key(loans[k].household) && manuals[t].visibility == loans[k].visibility
    ensures forall j, k | j in Replacements(manuals, loans) && k in Replacements(manuals, loans) && TargetOf(loans, j) == TargetOf(loans, k) :: j == k
    ensures forall t | t in Suppressed(manuals, loans) :: exists k :: k in Replacements(manuals, loans) && TargetOf(loans, k) == t
  {
    forall t | t in Suppressed(manuals, loans) ensures exists k :: k in Replacements(manuals, loans) && TargetOf(loans, k) == t {
      var k :| k in loans && Included(manuals, loans, k) && loans[k].mode == Replacement && loans[k].target.Some? && Key(loans[k].target.value) == t;
      assert k in Replacements(manuals, loans) && TargetOf(loans, k) == t;
    }
    forall j, k | j in Replacements(manuals, loans) && k in Replacements(manuals, loans) && TargetOf(loans, j) == TargetOf(loans, k)
      ensures j == k
    {
      assert TargetStands(manuals, loans, j) && Replaces(loans[k], TargetOf(loans, j));
    }
  }

  /** No account is included twice. */
  lemma AccountsCountOnce(manuals: map<string, Manual>, loans: map<string, Observed>, j: string, k: string)
    requires j in IncludedLoans(manuals, loans) && k in IncludedLoans(manuals, loans) && j != k
    ensures loans[j].fingerprint != loans[k].fingerprint
  {
    assert !Doubled(loans, j);
  }

  // ---- the program ----

  /** A row agrees with what was kept under its id. */
  predicate ManualAgrees(before: map<string, Manual>, m: Manual) { Key(m.id) in before ==> before[Key(m.id)] == Attributes(m) }

  predicate LoanAgrees(before: map<string, Observed>, l: Observed) { Key(l.id) in before ==> before[Key(l.id)] == l }

  lemma ConsistentManualAgrees(items: seq<Manual>, n: nat, recordable: string -> bool)
    requires n < |items| && ConsistentManuals(items[..n], recordable) && ConsistentManuals(items[..n + 1], recordable)
    ensures ValidManual(items[n], recordable) && ManualAgrees(ManualsOf(items[..n]), items[n])
  {
    var s, k := items[..n + 1], Key(items[n].id);
    assert s[n] == items[n];
    ManualsMeaning(items[..n], recordable, k);
    if k in ManualsOf(items[..n]) {
      var i :| 0 <= i < n && Key(items[..n][i].id) == k;
      assert s[i] == items[..n][i];
    }
  }

  lemma AgreeingManualIsConsistent(items: seq<Manual>, n: nat, recordable: string -> bool)
    requires n < |items| && ConsistentManuals(items[..n], recordable)
    requires ValidManual(items[n], recordable) && ManualAgrees(ManualsOf(items[..n]), items[n])
    ensures ConsistentManuals(items[..n + 1], recordable)
  {
    var s, t := items[..n + 1], items[..n];
    ManualsMeaning(t, recordable, Key(items[n].id));
    forall i | 0 <= i < |s| ensures ValidManual(s[i], recordable) { if i < n { assert s[i] == t[i]; } }
    forall i, j | 0 <= i < |s| && 0 <= j < |s| && Key(s[i].id) == Key(s[j].id) ensures Attributes(s[i]) == Attributes(s[j]) {
      if i < n { assert s[i] == t[i]; }
      if j < n { assert s[j] == t[j]; }
    }
  }

  lemma ManualsNext(items: seq<Manual>, n: nat)
    requires n < |items|
    ensures ManualsOf(items[..n + 1]) == ManualsOf(items[..n])[Key(items[n].id) := Attributes(items[n])]
  {
    assert items[..n + 1][..n] == items[..n];
  }

  lemma ManualPrefix(items: seq<Manual>, n: nat, recordable: string -> bool)
    requires n <= |items| && ConsistentManuals(items, recordable)
    ensures ConsistentManuals(items[..n], recordable)
  {
    assert forall i | 0 <= i < n :: items[..n][i] == items[i];
  }

  method CollectManuals(items: seq<Manual>, recordable: string -> bool) returns (r: Option<map<string, Manual>>, kept: seq<Manual>)
    ensures r.Some? <==> ConsistentManuals(items, recordable)
    ensures r.Some? ==> r.value == ManualsOf(items) && kept == FirstManuals(items)
  {
    var manuals := map[];
    kept := [];
    for n := 0 to |items|
      invariant ConsistentManuals(items[..n], recordable) && manuals == ManualsOf(items[..n]) && kept == FirstManuals(items[..n])
    {
      var k := Key(items[n].id);
      assert items[..n + 1][..n] == items[..n];
      if !ValidManual(items[n], recordable) || (k in manuals && manuals[k] != Attributes(items[n])) {
        if ConsistentManuals(items, recordable) {
          ManualPrefix(items, n + 1, recordable);
          ConsistentManualAgrees(items, n, recordable);
        }
        return None, [];
      }
      AgreeingManualIsConsistent(items, n, recordable);
      ManualsNext(items, n);
      if k !in manuals { manuals, kept := manuals[k := Attributes(items[n])], kept + [items[n]]; }
    }
    assert items[..|items|] == items;
    r := Some(manuals);
  }

  lemma ConsistentLoanAgrees(items: seq<Observed>, n: nat)
    requires n < |items| && ConsistentLoans(items[..n]) && ConsistentLoans(items[..n + 1])
    ensures ValidLoan(items[n]) && LoanAgrees(LoansOf(items[..n]), items[n])
  {
    var s, k := items[..n + 1], Key(items[n].id);
    assert s[n] == items[n];
    LoansMeaning(items[..n], k);
    if k in LoansOf(items[..n]) {
      var i :| 0 <= i < n && Key(items[..n][i].id) == k;
      assert s[i] == items[..n][i];
    }
  }

  lemma AgreeingLoanIsConsistent(items: seq<Observed>, n: nat)
    requires n < |items| && ConsistentLoans(items[..n])
    requires ValidLoan(items[n]) && LoanAgrees(LoansOf(items[..n]), items[n])
    ensures ConsistentLoans(items[..n + 1])
  {
    var s, t := items[..n + 1], items[..n];
    LoansMeaning(t, Key(items[n].id));
    forall i | 0 <= i < |s| ensures ValidLoan(s[i]) { if i < n { assert s[i] == t[i]; } }
    forall i, j | 0 <= i < |s| && 0 <= j < |s| && Key(s[i].id) == Key(s[j].id) ensures s[i] == s[j] {
      if i < n { assert s[i] == t[i]; }
      if j < n { assert s[j] == t[j]; }
    }
  }

  lemma LoansNext(items: seq<Observed>, n: nat)
    requires n < |items|
    ensures LoansOf(items[..n + 1]) == LoansOf(items[..n])[Key(items[n].id) := items[n]]
  {
    assert items[..n + 1][..n] == items[..n];
  }

  lemma LoanPrefix(items: seq<Observed>, n: nat)
    requires n <= |items| && ConsistentLoans(items)
    ensures ConsistentLoans(items[..n])
  {
    assert forall i | 0 <= i < n :: items[..n][i] == items[i];
  }

  method CollectLoans(items: seq<Observed>) returns (r: Option<map<string, Observed>>, kept: seq<Observed>)
    ensures r.Some? <==> ConsistentLoans(items)
    ensures r.Some? ==> r.value == LoansOf(items) && kept == FirstLoans(items)
  {
    var loans := map[];
    kept := [];
    for n := 0 to |items|
      invariant ConsistentLoans(items[..n]) && loans == LoansOf(items[..n]) && kept == FirstLoans(items[..n])
    {
      var k := Key(items[n].id);
      assert items[..n + 1][..n] == items[..n];
      if !ValidLoan(items[n]) || (k in loans && loans[k] != items[n]) {
        if ConsistentLoans(items) {
          LoanPrefix(items, n + 1);
          ConsistentLoanAgrees(items, n);
        }
        return None, [];
      }
      AgreeingLoanIsConsistent(items, n);
      LoansNext(items, n);
      if k !in loans { loans, kept := loans[k := items[n]], kept + [items[n]]; }
    }
    assert items[..|items|] == items;
    r := Some(loans);
  }

  function Count(counts: map<string, nat>, k: string): nat { if k in counts then counts[k] else 0 }

  function SharingAccount(loans: map<string, Observed>, keys: set<string>, f: string): set<string> {
    set k | k in keys && k in loans && Eligible(loans[k]) && loans[k].fingerprint == f
  }

  function ClaimingTarget(loans: map<string, Observed>, keys: set<string>, t: string): set<string> {
    set k | k in keys && k in loans && Eligible(loans[k]) && Replaces(loans[k], t)
  }

  ghost predicate Counted(loans: map<string, Observed>, keys: set<string>, accounts: map<string, nat>, targets: map<string, nat>) {
    && (forall f {:trigger Count(accounts, f)} :: Count(accounts, f) == |SharingAccount(loans, keys, f)|)
    && (forall t {:trigger Count(targets, t)} :: Count(targets, t) == |ClaimingTarget(loans, keys, t)|)
  }

  lemma SharingNext(loans: map<string, Observed>, keys: set<string>, k: string, f: string)
    requires k in loans && k !in keys
    ensures |SharingAccount(loans, keys + {k}, f)|
         == |SharingAccount(loans, keys, f)| + (if Eligible(loans[k]) && loans[k].fingerprint == f then 1 else 0)
  {
    assert SharingAccount(loans, keys + {k}, f)
        == SharingAccount(loans, keys, f) + (if Eligible(loans[k]) && loans[k].fingerprint == f then {k} else {});
  }

  lemma ClaimingNext(loans: map<string, Observed>, keys: set<string>, k: string, t: string)
    requires k in loans && k !in keys
    ensures |ClaimingTarget(loans, keys + {k}, t)|
         == |ClaimingTarget(loans, keys, t)| + (if Eligible(loans[k]) && Replaces(loans[k], t) then 1 else 0)
  {
    assert ClaimingTarget(loans, keys + {k}, t)
        == ClaimingTarget(loans, keys, t) + (if Eligible(loans[k]) && Replaces(loans[k], t) then {k} else {});
  }

  function Bump(counts: map<string, nat>, k: string): map<string, nat> { counts[k := Count(counts, k) + 1] }

  lemma CountedNext(loans: map<string, Observed>, keys: set<string>, k: string, accounts: map<string, nat>, targets: map<string, nat>)
    requires Counted(loans, keys, accounts, targets) && k in loans && k !in keys
    ensures var l := loans[k];
            Counted(loans, keys + {k}, if Eligible(l) then Bump(accounts, l.fingerprint) else accounts,
                    if Eligible(l) && l.target.Some? then Bump(targets, Key(l.target.value)) else targets)
  {
    var l := loans[k];
    var accounts' := if Eligible(l) then Bump(accounts, l.fingerprint) else accounts;
    var targets' := if Eligible(l) && l.target.Some? then Bump(targets, Key(l.target.value)) else targets;
    forall f ensures Count(accounts', f) == |SharingAccount(loans, keys + {k}, f)| {
      SharingNext(loans, keys, k, f);
      assert Count(accounts, f) == |SharingAccount(loans, keys, f)|;
    }
    forall t ensures Count(targets', t) == |ClaimingTarget(loans, keys + {k}, t)| {
      ClaimingNext(loans, keys, k, t);
      assert Count(targets, t) == |ClaimingTarget(loans, keys, t)|;
    }
  }

  method CountClaims(loans: map<string, Observed>) returns (accounts: map<string, nat>, targets: map<string, nat>)
    ensures Counted(loans, loans.Keys, accounts, targets)
  {
    accounts, targets := map[], map[];
    var pending := loans.Keys;
    assert forall f :: SharingAccount(loans, {}, f) == {} && ClaimingTarget(loans, {}, f) == {};
    assert loans.Keys - pending == {};
    while pending != {}
      invariant pending <= loans.Keys && Counted(loans, loans.Keys - pending, accounts, targets)
    {
      var k :| k in pending;
      var l := loans[k];
      CountedNext(loans, loans.Keys - pending, k, accounts, targets);
      assert loans.Keys - pending + {k} == loans.Keys - (pending - {k});
      pending := pending - {k};
      if Eligible(l) {
        accounts := Bump(accounts, l.fingerprint);
        if l.target.Some? { targets := Bump(targets, Key(l.target.value)); }
      }
    }
    assert loans.Keys - pending == loans.Keys;
  }

  lemma {:induction false} AloneIffOne(s: set<string>, k: string)
    requires k in s
    ensures |s| == 1 <==> s == {k}
  {
    if |s| == 1 { assert |s - {k}| == 0; }
  }

  lemma CountsDecide(manuals: map<string, Manual>, loans: map<string, Observed>, accounts: map<string, nat>, targets: map<string, nat>, k: string)
    requires Counted(loans, loans.Keys, accounts, targets) && k in loans && Eligible(loans[k])
    ensures Count(accounts, loans[k].fingerprint) > 1 <==> Doubled(loans, k)
    ensures loans[k].target.Some? ==>
              (Count(targets, Key(loans[k].target.value)) == 1 <==>
                 forall j | j in loans :: j != k && Eligible(loans[j]) ==> !Replaces(loans[j], Key(loans[k].target.value)))
  {
    var same := SharingAccount(loans, loans.Keys, loans[k].fingerprint);
    assert Count(accounts, loans[k].fingerprint) == |same|;
    AloneIffOne(same, k);
    assert |same| >= 1;
    if Doubled(loans, k) {
      var j :| j in loans && j != k && Eligible(loans[j]) && loans[j].fingerprint == loans[k].fingerprint;
      assert j in same;
    } else {
      assert same == {k};
    }
    if loans[k].target.Some? {
      var t := Key(loans[k].target.value);
      var claims := ClaimingTarget(loans, loans.Keys, t);
      assert Count(targets, t) == |claims|;
      AloneIffOne(claims, k);
      assert k in claims;
      if forall j | j in loans :: j != k && Eligible(loans[j]) ==> !Replaces(loans[j], t) { assert claims == {k}; }
      forall j | j in loans && j != k && Eligible(loans[j]) && Replaces(loans[j], t) ensures j in claims {}
    }
  }

  /** Decides a loan by the counts. */
  method JudgeOne(manuals: map<string, Manual>, loans: map<string, Observed>, accounts: map<string, nat>, targets: map<string, nat>, k: string)
    returns (reason: Option<Reason>)
    requires Counted(loans, loans.Keys, accounts, targets) && k in loans && ValidLoan(loans[k])
    ensures reason == ReasonFor(manuals, loans, k)
  {
    var l := loans[k];
    if l.visibility == Household && !l.sharingValid { return Some(SharingExpired); }
    if l.mode == Reference { return Some(IsReference); }
    CountsDecide(manuals, loans, accounts, targets, k);
    if Count(accounts, l.fingerprint) > 1 { return Some(DuplicateVisibleLoan); }
    if l.mode == Replacement {
      var t := Key(l.target.value);
      if t !in manuals || manuals[t].kind != Loan || manuals[t].owner != Key(l.owner) || manuals[t].household != Key(l.household)
         || manuals[t].visibility != l.visibility || l.expected != Some(manuals[t].version) || Count(targets, t) != 1
      {
        return Some(ReplacementChanged);
      }
    }
    reason := None;
  }

  /** Judges every loan, and collects what the included replacements suppress. */
  method Judge(manuals: map<string, Manual>, loans: map<string, Observed>)
    returns (reasons: map<string, Option<Reason>>, suppressed: set<string>)
    requires forall k | k in loans :: ValidLoan(loans[k])
    ensures reasons.Keys == loans.Keys && forall k | k in loans :: reasons[k] == ReasonFor(manuals, loans, k)
    ensures suppressed == Suppressed(manuals, loans)
  {
    var accounts, targets := CountClaims(loans);
    reasons, suppressed := map[], {};
    var pending := loans.Keys;
    assert SuppressedBy(manuals, loans, loans.Keys - pending) == {};
    while pending != {}
      invariant pending <= loans.Keys && reasons.Keys == loans.Keys - pending
      invariant forall k | k in reasons :: reasons[k] == ReasonFor(manuals, loans, k)
      invariant suppressed == SuppressedBy(manuals, loans, loans.Keys - pending)
    {
      var k :| k in pending;
      var reason := JudgeOne(manuals, loans, accounts, targets, k);
      SuppressedNext(manuals, loans, loans.Keys - pending, k);
      assert loans.Keys - pending + {k} == loans.Keys - (pending - {k});
      if reason == None && loans[k].mode == Replacement { suppressed := suppressed + {Key(loans[k].target.value)}; }
      reasons, pending := reasons[k := reason], pending - {k};
    }
    assert loans.Keys - pending == loans.Keys;
    assert SuppressedBy(manuals, loans, loans.Keys) == Suppressed(manuals, loans);
  }

  function SuppressedBy(manuals: map<string, Manual>, loans: map<string, Observed>, keys: set<string>): set<string> {
    set k | k in keys && k in loans && Included(manuals, loans, k) && loans[k].mode == Replacement && loans[k].target.Some? ::
      Key(loans[k].target.value)
  }

  lemma SuppressedNext(manuals: map<string, Manual>, loans: map<string, Observed>, keys: set<string>, k: string)
    requires k in loans && k !in keys && ValidLoan(loans[k])
    ensures SuppressedBy(manuals, loans, keys + {k})
         == SuppressedBy(manuals, loans, keys)
            + (if loans[k].mode == Replacement && ReasonFor(manuals, loans, k) == None then {Key(loans[k].target.value)} else {})
  {
    var more := if loans[k].mode == Replacement && ReasonFor(manuals, loans, k) == None then {Key(loans[k].target.value)} else {};
    forall t ensures t in SuppressedBy(manuals, loans, keys + {k}) <==> t in SuppressedBy(manuals, loans, keys) + more {
      if t in SuppressedBy(manuals, loans, keys) {
        var j :| j in keys && j in loans && Included(manuals, loans, j) && loans[j].mode == Replacement && loans[j].target.Some?
                 && Key(loans[j].target.value) == t;
        assert j in keys + {k};
      }
    }
  }

  /** The known amounts added up, and whether all are known. */
  method Add(manuals: map<string, Manual>, keys: set<string>) returns (value: Option<int>, completeness: Completeness)
    requires keys <= manuals.Keys
    ensures value == Value(manuals, keys) && completeness == CompletenessOf(manuals, keys)
  {
    var known := KnownOf(manuals, keys);
    var total := 0;
    var pending := known;
    assert known - pending == {};
    while pending != {}
      invariant pending <= known && total == Sum(known - pending, AmountOf(manuals))
    {
      var k :| k in pending;
      SumAdds(known - pending, AmountOf(manuals), k);
      assert known - pending + {k} == known - (pending - {k});
      total, pending := total + manuals[k].amount.value, pending - {k};
    }
    assert known - pending == known;
    value := if known == {} then None else Some(total);
    completeness := if keys == {} then Empty else if known == keys then Complete else Partial;
  }

  method AddPrincipals(loans: map<string, Observed>, keys: set<string>) returns (total: int)
    requires keys <= loans.Keys
    ensures total == Sum(keys, PrincipalOf(loans))
  {
    total := 0;
    var pending := keys;
    assert keys - pending == {};
    while pending != {}
      invariant pending <= keys && total == Sum(keys - pending, PrincipalOf(loans))
    {
      var k :| k in pending;
      SumAdds(keys - pending, PrincipalOf(loans), k);
      assert keys - pending + {k} == keys - (pending - {k});
      total, pending := total + loans[k].principal, pending - {k};
    }
    assert keys - pending == keys;
  }

  lemma NoReasonIsIncluded(manuals: map<string, Manual>, loans: map<string, Observed>, reasons: map<string, Option<Reason>>)
    requires reasons.Keys == loans.Keys && forall k | k in loans :: reasons[k] == ReasonFor(manuals, loans, k)
    ensures (set k | k in reasons && reasons[k] == None) == IncludedLoans(manuals, loans)
    ensures (set k | k in reasons && reasons[k] != None && loans[k].mode != Reference) == Unresolved(loans, IncludedLoans(manuals, loans))
  {
    forall k | k in loans ensures ReasonFor(manuals, loans, k) == None <==> Included(manuals, loans, k) {}
  }

  /** The edits the program makes to the manual summary. */
  method Edit(assets: Option<int>, assetsKnown: Completeness, debt: Option<int>, debtKnown: Completeness, observed: Option<int>,
              empty: bool, dates: Dates, unresolved: nat) returns (t: Totals)
    ensures t == Combine(assets, assetsKnown, debt, debtKnown, observed, empty, dates, unresolved)
  {
    t := Totals(assets, debt, None, assetsKnown, debtKnown, Empty, dates, unresolved);
    if observed.Some? {
      t := t.(debt := Some((if t.debt.Some? then t.debt.value else 0) + observed.value));
      if t.debts == Empty { t := t.(debts := Complete); }
      t := t.(dates := t.dates.(common := None));
    }
    if unresolved > 0 { t := t.(debts := Partial); }
    var complete := t.assets == Complete && t.debts == Complete;
    if complete && t.grossAssets.Some? && t.debt.Some? { t := t.(netAssets := Some(t.grossAssets.value - t.debt.value)); }
    t := t.(completeness := if empty && observed.None? && unresolved == 0 then Empty else if complete then Complete else Partial);
  }

  method Totalled(manuals: map<string, Manual>, loans: map<string, Observed>, included: set<string>, effective: set<string>, unresolved: nat)
    returns (t: Totals)
    requires effective <= manuals.Keys && included == IncludedLoans(manuals, loans)
    requires effective == manuals.Keys - Suppressed(manuals, loans) && unresolved == |Unresolved(loans, included)|
    ensures t == Overview(manuals, loans)
  {
    var assetKeys := AssetKeys(manuals, effective);
    var assets, assetsKnown := Add(manuals, assetKeys);
    var debt, debtKnown := Add(manuals, effective - assetKeys);
    var observed := None;
    if included != {} {
      var principals := AddPrincipals(loans, included);
      observed := Some(principals);
    }
    var listing := S.SortedListing(DatesOf(manuals, effective));
    t := Edit(assets, assetsKnown, debt, debtKnown, observed, effective == {}, DatesIn(manuals, effective, listing), unresolved);
  }

  method ShowLoans(manuals: map<string, Manual>, loans: map<string, Observed>, reasons: map<string, Option<Reason>>, items: seq<Observed>)
    returns (shown: seq<Shown>)
    requires forall i | 0 <= i < |items| :: Key(items[i].id) in loans
    requires reasons.Keys == loans.Keys && forall k | k in loans :: reasons[k] == ReasonFor(manuals, loans, k)
    ensures shown == ShownLoans(manuals, loans, items)
  {
    shown := [];
    for n := 0 to |items|
      invariant shown == ShownLoans(manuals, loans, items)[..n]
    {
      shown := shown + [Shown(items[n], reasons[Key(items[n].id)])];
    }
  }

  /** The program shows exactly the rows, reasons and totals of the simple form, or fails exactly when rows are inconsistent. */
  method ComposeFinancialOverview(manualItems: seq<Manual>, loanItems: seq<Observed>, recordable: string -> bool)
    returns (r: Result<View>)
    ensures r == OverviewOf(manualItems, loanItems, recordable)
  {
    var manuals, manualRows := CollectManuals(manualItems, recordable);
    if manuals.None? { return RangeError; }
    var loans, loanRows := CollectLoans(loanItems);
    if loans.None? { return RangeError; }
    forall k | k in loans.value ensures ValidLoan(loans.value[k]) {
      LoansMeaning(loanItems, k);
      var i :| 0 <= i < |loanItems| && Key(loanItems[i].id) == k;
    }
    var reasons, suppressed := Judge(manuals.value, loans.value);
    var shown := ShowLoans(manuals.value, loans.value, reasons, loanRows);
    var included := set k | k in reasons && reasons[k] == None;
    var unresolved := set k | k in reasons && reasons[k] != None && loans.value[k].mode != Reference;
    NoReasonIsIncluded(manuals.value, loans.value, reasons);
    var t := Totalled(manuals.value, loans.value, included, manuals.value.Keys - suppressed, |unresolved|);
    r := Ok(View(manualRows, shown, t));
  }

  /** A complete overview has both sides known and nothing left open, and its net is their difference. */
  lemma CompleteMeansKnown(manuals: map<string, Manual>, loans: map<string, Observed>)
    requires Overview(manuals, loans).completeness == Complete
    ensures var t := Overview(manuals, loans);
            && t.unresolved == 0 && t.grossAssets.Some? && t.debt.Some? && t.netAssets == Some(t.grossAssets.value - t.debt.value)
            && forall k | k in manuals && k !in Suppressed(manuals, loans) :: manuals[k].amount.Some?
  {
    var effective := manuals.Keys - Suppressed(manuals, loans);
    var assets := AssetKeys(manuals, effective);
    var debts := effective - assets;
    assert CompletenessOf(manuals, assets) == Complete;
    assert KnownOf(manuals, assets) == assets;
    assert debts == {} || KnownOf(manuals, debts) == debts by { assert CompletenessOf(manuals, debts) != Partial; }
    forall k | k in manuals && k !in Suppressed(manuals, loans) ensures manuals[k].amount.Some? {
      if k in assets { assert k in KnownOf(manuals, assets); } else { assert k in debts && k in KnownOf(manuals, debts); }
    }
  }
}
