/**
 * What a proposal says about the rows it was made from, in terms of those rows alone: who is in it, in which order, and
 * what it adds up to.
 */
module MerchantTruncationMeaning {
  import opened MerchantTruncation
  import opened MerchantTruncationTheorems
  import StableSort

  /** A listed row that is no alias. */
  predicate IsRow(items: seq<Item>, m: Item) { m in items && m.aliasOf.None? }

  /** The first name is what is left of the second after cutting its tail, and has four characters or more. */
  predicate Cut(a: string, b: string) { 4 <= |a| < |b| && b[..|a|] == a }

  ghost predicate IsRowName(items: seq<Item>, a: string) { exists m :: IsRow(items, m) && m.name == a }

  ghost predicate Path(items: seq<Item>, c: seq<string>) {
    && c != [] && (forall i | 0 <= i < |c| :: IsRowName(items, c[i]))
    && forall i | 0 <= i < |c| - 1 :: Cut(c[i], c[i + 1]) || Cut(c[i + 1], c[i])
  }

  /** Cuts of one row's name lead to another's. */
  ghost predicate Linked(items: seq<Item>, a: string, b: string) { exists c :: Path(items, c) && c[0] == a && c[|c| - 1] == b }

  function Count(rows: seq<Item>): int { if rows == [] then 0 else rows[0].transactionCount + Count(rows[1..]) }

  function Net(rows: seq<Item>): int { if rows == [] then 0 else rows[0].netTotal + Net(rows[1..]) }

  predicate Ahead(x: Item, y: Item) { |x.name| > |y.name| || (|x.name| == |y.name| && x.netTotal >= y.netTotal) }

  predicate Even(x: Item, y: Item) { |x.name| == |y.name| && x.netTotal == y.netTotal }

  lemma {:induction false} PoolMeaning(items: seq<Item>, m: Item)
    ensures multiset(Pool(items))[m] == if m.aliasOf.None? then multiset(items)[m] else 0
    ensures m in Pool(items) <==> IsRow(items, m)
  {
    if items != [] {
      PoolMeaning(items[1..], m);
      assert items == [items[0]] + items[1..];
    }
    assert m in Pool(items) <==> m in multiset(Pool(items));
    assert m in items <==> m in multiset(items);
  }

  lemma NamesMeaning(items: seq<Item>, a: string)
    ensures a in Names(Pool(items)) <==> IsRowName(items, a)
  {
    if a in Names(Pool(items)) {
      var m :| m in Pool(items) && m.name == a;
      PoolMeaning(items, m);
      assert IsRow(items, m) && m.name == a;
    }
    if IsRowName(items, a) {
      var m :| IsRow(items, m) && m.name == a;
      PoolMeaning(items, m);
    }
  }

  lemma PathMeaning(items: seq<Item>, c: seq<string>)
    ensures Path(items, c) <==> Chain(Names(Pool(items)), c)
  {
    forall i | 0 <= i < |c| ensures c[i] in Names(Pool(items)) <==> IsRowName(items, c[i]) { NamesMeaning(items, c[i]); }
    forall a: string, b: string ensures Cut(a, b) <==> Truncates(a, b) {}
  }

  lemma LinkedMeaning(items: seq<Item>, a: string, b: string)
    requires IsRowName(items, a) && IsRowName(items, b)
    ensures Linked(items, a, b) <==> Key(Names(Pool(items)), a) == Key(Names(Pool(items)), b)
  {
    NamesMeaning(items, a);
    NamesMeaning(items, b);
    SameKeyIffLinked(Names(Pool(items)), a, b);
    forall c ensures Path(items, c) <==> Chain(Names(Pool(items)), c) { PathMeaning(items, c); }
  }

  lemma LinkedAreNames(items: seq<Item>, a: string, b: string)
    requires Linked(items, a, b)
    ensures IsRowName(items, a) && IsRowName(items, b)
  {
    var c :| Path(items, c) && c[0] == a && c[|c| - 1] == b;
  }

  lemma {:induction false} SumMeaning(rows: seq<Item>)
    ensures Sum(rows, CountOf) == Count(rows) && Sum(rows, NetOf) == Net(rows)
  {
    if rows != [] { SumMeaning(rows[1..]); }
  }

  lemma {:induction false} TotalsRearranged(a: seq<Item>, b: seq<Item>)
    requires multiset(a) == multiset(b)
    ensures Count(a) == Count(b) && Net(a) == Net(b)
    decreases |a|
  {
    assert |a| == |multiset(a)| == |b|;
    if a != [] {
      var i := PlaceOf(a, b);
      TotalsRearranged(a[1..], b[..i] + b[i + 1..]);
      TotalsAt(b, i);
    }
  }

  lemma RestMultiset<T>(a: seq<T>)
    requires a != []
    ensures multiset(a[1..]) == multiset(a) - multiset{a[0]}
  {
    assert a == [a[0]] + a[1..];
  }

  lemma PlaceOf(a: seq<Item>, b: seq<Item>) returns (i: nat)
    requires a != [] && multiset(a) == multiset(b)
    ensures i < |b| && b[i] == a[0] && multiset(a[1..]) == multiset(b[..i] + b[i + 1..])
  {
    assert a[0] in multiset(a);
    i :| i < |b| && b[i] == a[0];
    RestMultiset(a);
    StableSort.RemovedMultiset(b, i);
  }

  lemma {:induction false} TotalsAt(b: seq<Item>, i: nat)
    requires i < |b|
    ensures Count(b) == b[i].transactionCount + Count(b[..i] + b[i + 1..])
    ensures Net(b) == b[i].netTotal + Net(b[..i] + b[i + 1..])
  {
    if i == 0 {
      assert b[..0] + b[1..] == b[1..];
    } else {
      TotalsAt(b[1..], i - 1);
      assert (b[..i] + b[i + 1..])[1..] == b[1..][..i - 1] + b[1..][i..];
      assert b[1..][i - 1 + 1..] == b[1..][i..];
    }
  }

  lemma {:induction false} BucketCounts(pool: seq<Item>, f: map<string, string>, tag: string, n: nat, m: Item)
    requires n <= |pool| && Names(pool) <= f.Keys
    ensures multiset(Members(pool, f, tag, n))[m] == if m in pool[..n] && f[m.name] == tag then multiset(pool[..n])[m] else 0
  {
    if n > 0 {
      BucketCounts(pool, f, tag, n - 1, m);
      assert pool[..n] == pool[..n - 1] + [pool[n - 1]];
      assert m in pool[..n - 1] <==> m in multiset(pool[..n - 1]);
    }
  }

  // ---- rows that are even keep their order ----

  lemma OrderKept<T>(front: seq<T>, last: T, x: T, y: T)
    requires StableSort.Before(front, x, y) || (x in front && y == last)
    ensures StableSort.Before(front + [last], x, y)
  {
    var all := front + [last];
    if StableSort.Before(front, x, y) {
      var i, j :| 0 <= i < j < |front| && front[i] == x && front[j] == y;
      assert all[i] == x && all[j] == y;
    } else {
      var i :| 0 <= i < |front| && front[i] == x;
      assert all[i] == x && all[|front|] == y;
    }
  }

  /** Even rows that come out in some order were in that order. */
  ghost predicate EvenKeep(s: seq<Item>, r: seq<Item>) { forall i, j | 0 <= i < j < |r| && Even(r[i], r[j]) :: StableSort.Before(s, r[i], r[j]) }

  lemma {:induction false} InsertKeepsEven(x: Item, t: seq<Item>, s: seq<Item>)
    requires EvenKeep(s, t) && (forall i, j | 0 <= i < j < |t| :: Before(t[i], t[j])) && forall y | y in t :: y in s
    ensures EvenKeep(s + [x], Insert(x, t))
  {
    var r := Insert(x, t);
    if t == [] || Before(t[|t| - 1], x) {
      forall i, j | 0 <= i < j < |r| && Even(r[i], r[j]) ensures StableSort.Before(s + [x], r[i], r[j]) {
        assert r[i] == t[i];
        if j < |t| { assert r[j] == t[j]; }
        OrderKept(s, x, r[i], r[j]);
      }
    } else {
      var front, z := t[..|t| - 1], t[|t| - 1];
      InsertKeepsEven(x, front, s);
      InsertSorts(x, front);
      var inner := Insert(x, front);
      forall i, j | 0 <= i < j < |r| && Even(r[i], r[j]) ensures StableSort.Before(s + [x], r[i], r[j]) {
        assert r[i] == inner[i];
        if j < |inner| {
          assert r[j] == inner[j];
        } else {
          assert inner[i] in multiset(front) + multiset{x};
          assert inner[i] != x;
          var k :| 0 <= k < |front| && front[k] == inner[i];
          assert t[k] == r[i] && t[|front|] == z;
          OrderKept(s, x, r[i], z);
        }
      }
    }
  }

  lemma {:induction false} SortedKeepsEven(s: seq<Item>)
    ensures EvenKeep(s, Sorted(s))
  {
    if s != [] {
      var front, x := s[..|s| - 1], s[|s| - 1];
      SortedKeepsEven(front);
      SortedSorts(front);
      forall y | y in Sorted(front) ensures y in front { assert y in multiset(Sorted(front)); }
      InsertKeepsEven(x, Sorted(front), front);
      assert s == front + [x];
    }
  }

  lemma {:induction false} BucketInOrder(pool: seq<Item>, f: map<string, string>, tag: string, n: nat, x: Item, y: Item)
    requires n <= |pool| && Names(pool) <= f.Keys && StableSort.Before(Members(pool, f, tag, n), x, y)
    ensures StableSort.Before(pool[..n], x, y)
  {
    var now := Members(pool, f, tag, n);
    var i, j :| 0 <= i < j < |now| && now[i] == x && now[j] == y;
    var before := Members(pool, f, tag, n - 1);
    assert pool[..n] == pool[..n - 1] + [pool[n - 1]];
    if j < |before| {
      assert before[i] == x && before[j] == y;
      BucketInOrder(pool, f, tag, n - 1, x, y);
    } else {
      InBucket(pool, f, tag, n - 1, x);
      assert before[i] == x;
    }
    OrderKept(pool[..n - 1], pool[n - 1], x, y);
  }

  lemma OneMoreBefore<T>(first: T, rest: seq<T>, x: T, y: T)
    requires StableSort.Before(rest, x, y) || (x == first && y in rest)
    ensures StableSort.Before([first] + rest, x, y)
  {
    var all := [first] + rest;
    if StableSort.Before(rest, x, y) {
      var i, j :| 0 <= i < j < |rest| && rest[i] == x && rest[j] == y;
      assert all[i + 1] == x && all[j + 1] == y;
    } else {
      var j :| 0 <= j < |rest| && rest[j] == y;
      assert all[0] == x && all[j + 1] == y;
    }
  }

  lemma OneLess<T>(first: T, rest: seq<T>, x: T, y: T)
    requires StableSort.Before([first] + rest, x, y)
    ensures StableSort.Before(rest, x, y) || (x == first && y in rest)
  {
    var all := [first] + rest;
    var i, j :| 0 <= i < j < |all| && all[i] == x && all[j] == y;
    if i > 0 { assert rest[i - 1] == x && rest[j - 1] == y; } else { assert rest[j - 1] == y; }
  }

  lemma {:induction false} PoolInOrder(items: seq<Item>, x: Item, y: Item)
    requires StableSort.Before(Pool(items), x, y)
    ensures StableSort.Before(items, x, y)
  {
    var first, rest := items[0], items[1..];
    assert items == [first] + rest;
    if first.aliasOf.None? { OneLess(first, Pool(rest), x, y); }
    if StableSort.Before(Pool(rest), x, y) { PoolInOrder(rest, x, y); } else { PoolMeaning(rest, y); }
    OneMoreBefore(first, rest, x, y);
  }

  // ---- the meaning of a group ----

  /** These are all the rows linked with the first of them, each as often as it is listed. */
  ghost predicate AllLinked(items: seq<Item>, rows: seq<Item>) {
    && |rows| >= 2
    && forall m :: multiset(rows)[m] == if IsRow(items, m) && Linked(items, rows[0].name, m.name) then multiset(items)[m] else 0
  }

  /** Longest name first, then the larger total, then as listed. */
  ghost predicate WellSorted(items: seq<Item>, rows: seq<Item>) {
    && (forall i, j | 0 <= i < j < |rows| :: Ahead(rows[i], rows[j]))
    && forall i, j | 0 <= i < j < |rows| && Even(rows[i], rows[j]) :: StableSort.Before(items, rows[i], rows[j])
  }

  predicate Shows(g: Group, rows: seq<Item>) {
    && 1 + |g.aliases| == |rows| && g.canonical == rows[0].name && (forall k | 0 <= k < |g.aliases| :: g.aliases[k] == rows[k + 1].name)
    && g.transactionCount == Count(rows) && g.netTotal == Net(rows)
  }

  lemma BucketLinked(items: seq<Item>, t: string, a: string, m: Item)
    requires t in Tags(items) && IsRowName(items, a) && Key(Names(Pool(items)), a) == t
    ensures multiset(Bucket(items, t))[m] == if IsRow(items, m) && Linked(items, a, m.name) then multiset(items)[m] else 0
  {
    var pool := Pool(items);
    BucketCounts(pool, ByKey(pool), t, |pool|, m);
    assert pool[..|pool|] == pool;
    PoolMeaning(items, m);
    if IsRow(items, m) { LinkedMeaning(items, a, m.name); }
  }

  lemma BucketSorted(items: seq<Item>, t: string)
    ensures var rows := Sorted(Bucket(items, t));
            WellSorted(items, rows) && multiset(rows) == multiset(Bucket(items, t))
  {
    var pool, bucket := Pool(items), Bucket(items, t);
    var rows := Sorted(bucket);
    SortedSorts(bucket);
    SortedKeepsEven(bucket);
    forall i, j | 0 <= i < j < |rows| ensures Ahead(rows[i], rows[j]) { assert Before(rows[i], rows[j]); }
    forall i, j | 0 <= i < j < |rows| && Even(rows[i], rows[j]) ensures StableSort.Before(items, rows[i], rows[j]) {
      BucketInOrder(pool, ByKey(pool), t, |pool|, rows[i], rows[j]);
      assert pool[..|pool|] == pool;
      PoolInOrder(items, rows[i], rows[j]);
    }
  }

  lemma GroupShows(members: seq<Item>)
    requires |members| > 0
    ensures Shows(GroupOf(members), Sorted(members))
  {
    SortedSorts(members);
    SumMeaning(members);
    TotalsRearranged(members, Sorted(members));
  }

  /**
   * Every proposal shows two or more rows: all rows, and only those, whose names cuts link with the first, the longest name
   * on top, with the sums of their transactions and of their money.
   */
  lemma GroupMeaning(items: seq<Item>, g: Group) returns (rows: seq<Item>)
    requires g in Candidates(items)
    ensures AllLinked(items, rows) && WellSorted(items, rows) && Shows(g, rows)
  {
    CandidatesAre(items, g);
    var t :| Stands(items, t, g);
    var bucket := Bucket(items, t);
    rows := Sorted(bucket);
    BucketSorted(items, t);
    GroupShows(bucket);
    var first := rows[0];
    assert first in multiset(bucket);
    BucketNames(items, t, first.name);
    NamesMeaning(items, first.name);
    forall m ensures multiset(rows)[m] == if IsRow(items, m) && Linked(items, first.name, m.name) then multiset(items)[m] else 0 {
      BucketLinked(items, t, first.name, m);
    }
  }

  lemma RestOfSum<T>(a: seq<T>, b: seq<T>)
    requires a != []
    ensures a + b != [] && (a + b)[0] == a[0] && (a + b)[1..] == a[1..] + b
  {
  }

  lemma Associative<T>(a: seq<T>, b: seq<T>, c: seq<T>)
    ensures a + (b + c) == a + b + c
  {
  }

  lemma {:induction false} PoolSplits(a: seq<Item>, b: seq<Item>)
    ensures Pool(a + b) == Pool(a) + Pool(b)
  {
    if a == [] {
      assert a + b == b;
    } else {
      PoolSplits(a[1..], b);
      RestOfSum(a, b);
      Associative(if a[0].aliasOf.None? then [a[0]] else [], Pool(a[1..]), Pool(b));
    }
  }

  lemma PoolAt(items: seq<Item>, p: nat)
    requires p < |items| && items[p].aliasOf.None?
    ensures |Pool(items[..p])| < |Pool(items)| && Pool(items)[|Pool(items[..p])|] == items[p]
  {
    PoolSplits(items[..p], items[p..]);
    assert items == items[..p] + items[p..];
    assert Pool(items[p..])[0] == items[p];
  }

  lemma ToPool(items: seq<Item>, p: nat, q: nat) returns (i: nat, j: nat)
    requires p < q < |items| && items[p].aliasOf.None? && items[q].aliasOf.None?
    ensures i < j < |Pool(items)| && Pool(items)[i] == items[p] && Pool(items)[j] == items[q]
  {
    PoolAt(items, p);
    PoolAt(items, q);
    PoolAt(items[..q], p);
    assert items[..q][..p] == items[..p];
    i, j := |Pool(items[..p])|, |Pool(items[..q])|;
  }

  /** Two rows are proposed together exactly when neither is an alias and cuts link their names. */
  lemma ProposedIff(items: seq<Item>, p: nat, q: nat)
    requires p < q < |items| && items[p].aliasOf.None? && items[q].aliasOf.None?
    ensures (exists g :: g in Candidates(items) && items[p].name in AllNames(g) && items[q].name in AllNames(g))
       <==> Linked(items, items[p].name, items[q].name)
  {
    var i, j := ToPool(items, p, q);
    ProposedTogether(items, i, j);
    assert IsRow(items, items[p]) && IsRow(items, items[q]);
    LinkedMeaning(items, items[p].name, items[q].name);
  }

  // ---- each group once, and even groups as listed ----

  /** A group of one bucket is not a group of an earlier one. */
  lemma NotAmongEarlier(items: seq<Item>, n: nat, g: Group)
    requires n < |Tags(items)| && GroupsTag(Pool(items), ByKey(Pool(items)), Tags(items)[n], g)
    ensures g !in Proposals(Pool(items), ByKey(Pool(items)), Tags(items)[..n])
  {
    var pool, tags := Pool(items), Tags(items);
    var f := ByKey(pool);
    ProposalsAre(pool, f, tags[..n], g);
    forall t | t in tags[..n] ensures !GroupsTag(pool, f, t, g) {
      var k :| 0 <= k < n && tags[..n][k] == t;
      TagsDiffer(pool, f, |pool|, k, n);
      if GroupsTag(pool, f, t, g) { OneTag(items, t, tags[n], g); }
    }
  }

  lemma AddsOnce<T>(s: seq<T>, t: seq<T>, g: T)
    requires multiset(s)[g] <= 1 && |t| <= 1 && (g in t ==> g !in s)
    ensures multiset(s + t)[g] <= 1
  {
    if t != [] { assert t == [t[0]]; }
  }

  lemma {:induction false} ProposedOnce(items: seq<Item>, n: nat, g: Group)
    requires n <= |Tags(items)|
    ensures multiset(Proposals(Pool(items), ByKey(Pool(items)), Tags(items)[..n]))[g] <= 1
  {
    if n > 0 {
      var pool, tags := Pool(items), Tags(items);
      var f := ByKey(pool);
      ProposedOnce(items, n - 1, g);
      LastProposal(pool, f, tags, n);
      if GroupsTag(pool, f, tags[n - 1], g) { NotAmongEarlier(items, n - 1, g); }
      AddsOnce(Proposals(pool, f, tags[..n - 1]), ProposalOf(pool, f, tags[n - 1]), g);
    }
  }

  function ProposalOf(pool: seq<Item>, f: map<string, string>, tag: string): seq<Group>
    requires Names(pool) <= f.Keys
  {
    var members := Members(pool, f, tag, |pool|);
    if |members| < 2 then [] else [GroupOf(members)]
  }

  lemma LastProposal(pool: seq<Item>, f: map<string, string>, tags: seq<string>, n: nat)
    requires Names(pool) <= f.Keys && 0 < n <= |tags|
    ensures Proposals(pool, f, tags[..n]) == Proposals(pool, f, tags[..n - 1]) + ProposalOf(pool, f, tags[n - 1])
  {
    assert tags[..n][..n - 1] == tags[..n - 1] && tags[..n][n - 1] == tags[n - 1];
  }

  lemma OneTag(items: seq<Item>, t: string, u: string, g: Group)
    requires Stands(items, t, g) && Stands(items, u, g)
    ensures t == u
  {
    GroupNames(Bucket(items, t));
    GroupNames(Bucket(items, u));
    assert g.canonical in AllNames(g);
    BucketNames(items, t, g.canonical);
    BucketNames(items, u, g.canonical);
  }

  lemma {:induction false} CountedTwice<T>(s: seq<T>, i: nat, j: nat)
    requires i < j < |s| && s[i] == s[j]
    ensures multiset(s)[s[i]] >= 2
  {
    assert s == s[..i] + [s[i]] + s[i + 1..j] + [s[j]] + s[j + 1..];
  }

  /** No name stands in two of the proposals. */
  lemma NoNameTwice(items: seq<Item>, i: nat, j: nat, x: string)
    requires i < j < |Candidates(items)| && x in AllNames(Candidates(items)[i])
    ensures x !in AllNames(Candidates(items)[j])
  {
    var all := Candidates(items);
    assert Tags(items)[..|Tags(items)|] == Tags(items);
    if x in AllNames(all[j]) {
      GroupsAreDisjoint(items, all[i], all[j], x);
      CountedTwice(all, i, j);
      RankedRanks(Proposals(Pool(items), ByKey(Pool(items)), Tags(items)));
      ProposedOnce(items, |Tags(items)|, all[i]);
    }
  }

  ghost predicate EvenGroupsKeep(s: seq<Group>, r: seq<Group>) {
    forall i, j | 0 <= i < j < |r| && r[i].netTotal == r[j].netTotal :: StableSort.Before(s, r[i], r[j])
  }

  lemma {:induction false} InsertGroupKeepsEven(g: Group, t: seq<Group>, s: seq<Group>)
    requires EvenGroupsKeep(s, t) && Descending(t) && forall y | y in t :: y in s
    ensures EvenGroupsKeep(s + [g], InsertGroup(g, t))
  {
    var r := InsertGroup(g, t);
    if t == [] || t[|t| - 1].netTotal >= g.netTotal {
      forall i, j | 0 <= i < j < |r| && r[i].netTotal == r[j].netTotal ensures StableSort.Before(s + [g], r[i], r[j]) {
        assert r[i] == t[i];
        if j < |t| { assert r[j] == t[j]; }
        OrderKept(s, g, r[i], r[j]);
      }
    } else {
      var front, z := t[..|t| - 1], t[|t| - 1];
      InsertGroupKeepsEven(g, front, s);
      InsertKeeps(g, front);
      var inner := InsertGroup(g, front);
      forall i, j | 0 <= i < j < |r| && r[i].netTotal == r[j].netTotal ensures StableSort.Before(s + [g], r[i], r[j]) {
        assert r[i] == inner[i];
        if j < |inner| {
          assert r[j] == inner[j];
        } else {
          assert inner[i] in multiset(inner);
          assert inner[i] != g;
          assert inner[i] in front;
          var k :| 0 <= k < |front| && front[k] == inner[i];
          assert t[k] == r[i] && t[|front|] == z;
          OrderKept(s, g, r[i], z);
        }
      }
    }
  }

  lemma RankedAreListed(s: seq<Group>, y: Group)
    requires y in Ranked(s)
    ensures y in s
  {
    RankedRanks(s);
    SameElements(s, Ranked(s), y);
  }

  lemma RankedOneMore(s: seq<Group>, g: Group)
    requires EvenGroupsKeep(s, Ranked(s))
    ensures EvenGroupsKeep(s + [g], InsertGroup(g, Ranked(s)))
  {
    RankedRanks(s);
    forall y | y in Ranked(s) ensures y in s { RankedAreListed(s, y); }
    InsertGroupKeepsEven(g, Ranked(s), s);
  }

  lemma {:induction false} RankedKeepsEven(s: seq<Group>)
    ensures EvenGroupsKeep(s, Ranked(s))
  {
    if s != [] {
      RankedKeepsEven(s[..|s| - 1]);
      RankedOneMore(s[..|s| - 1], s[|s| - 1]);
      assert s[..|s| - 1] + [s[|s| - 1]] == s;
    }
  }

  lemma TagOf(pool: seq<Item>, f: map<string, string>, tags: seq<string>, g: Group) returns (k: nat)
    requires Names(pool) <= f.Keys && g in Proposals(pool, f, tags)
    ensures k < |tags| && GroupsTag(pool, f, tags[k], g)
  {
    ProposalsAre(pool, f, tags, g);
    var t :| t in tags && GroupsTag(pool, f, t, g);
    k :| k < |tags| && tags[k] == t;
  }

  lemma {:induction false} ProposedInOrder(pool: seq<Item>, f: map<string, string>, tags: seq<string>, g: Group, h: Group)
    requires Names(pool) <= f.Keys && StableSort.Before(Proposals(pool, f, tags), g, h)
    ensures exists k, l :: 0 <= k < l < |tags| && GroupsTag(pool, f, tags[k], g) && GroupsTag(pool, f, tags[l], h)
  {
    var all := Proposals(pool, f, tags);
    var i, j :| 0 <= i < j < |all| && all[i] == g && all[j] == h;
    var front, last := tags[..|tags| - 1], tags[|tags| - 1];
    var rest := Proposals(pool, f, front);
    if j < |rest| {
      assert rest[i] == g && rest[j] == h;
      ProposedInOrder(pool, f, front, g, h);
      var k, l :| 0 <= k < l < |front| && GroupsTag(pool, f, front[k], g) && GroupsTag(pool, f, front[l], h);
      assert tags[k] == front[k] && tags[l] == front[l];
    } else {
      assert rest[i] == g && GroupsTag(pool, f, last, h);
      var k := TagOf(pool, f, front, g);
      assert tags[k] == front[k] && GroupsTag(pool, f, tags[|tags| - 1], h);
    }
  }

  lemma {:induction false} LabelFirst(pool: seq<Item>, f: map<string, string>, n: nat, k: nat, l: nat) returns (at: nat)
    requires n <= |pool| && Names(pool) <= f.Keys && k < l < |Labels(pool, f, n)|
    ensures at < n && f[pool[at].name] == Labels(pool, f, n)[k] && forall j | 0 <= j <= at :: f[pool[j].name] != Labels(pool, f, n)[l]
  {
    var before := Labels(pool, f, n - 1);
    if l < |before| {
      at := LabelFirst(pool, f, n - 1, k, l);
    } else {
      LabelsInBuckets(pool, f, n - 1, k);
      at :| 0 <= at < n - 1 && f[pool[at].name] == before[k];
    }
  }

  lemma RowsBefore(items: seq<Item>, at: nat) returns (p: nat)
    requires at < |Pool(items)|
    ensures p < |items| && items[p] == Pool(items)[at]
    ensures forall q | 0 <= q <= p && items[q].aliasOf.None? :: exists j: nat :: j <= at && Pool(items)[j] == items[q]
  {
    if items[0].aliasOf.None? && at == 0 {
      p := 0;
    } else {
      var more := if items[0].aliasOf.None? then 1 else 0;
      p := RowsBefore(items[1..], at - more);
      p := p + 1;
      forall q | 0 <= q <= p && items[q].aliasOf.None? ensures exists j: nat :: j <= at && Pool(items)[j] == items[q] {
        if q == 0 {
          assert Pool(items)[0] == items[0];
        } else {
          assert items[1..][q - 1] == items[q];
          var j: nat :| j <= at - more && Pool(items[1..])[j] == items[q];
          assert Pool(items)[j + more] == items[q];
        }
      }
    }
  }

  /** The largest totals come first; of two groups with one total, the one whose first row is listed earlier. */
  lemma RankMeaning(items: seq<Item>, i: nat, j: nat)
    requires i < j < |Candidates(items)|
    ensures var g, h := Candidates(items)[i], Candidates(items)[j];
            || g.netTotal > h.netTotal
            || (g.netTotal == h.netTotal
                && exists p :: 0 <= p < |items| && items[p].aliasOf.None? && items[p].name in AllNames(g)
                               && forall q | 0 <= q <= p && items[q].aliasOf.None? :: items[q].name !in AllNames(h))
  {
    var g, h := Candidates(items)[i], Candidates(items)[j];
    LargestFirst(items, i, j);
    if g.netTotal == h.netTotal {
      var p := FirstRow(items, g, h) by {
        var s := Proposals(Pool(items), ByKey(Pool(items)), Tags(items));
        RankedKeepsEven(s);
      }
      assert items[p].name in AllNames(g);
    }
  }

  lemma FirstRow(items: seq<Item>, g: Group, h: Group) returns (p: nat)
    requires StableSort.Before(Proposals(Pool(items), ByKey(Pool(items)), Tags(items)), g, h)
    ensures p < |items| && items[p].aliasOf.None? && items[p].name in AllNames(g)
    ensures forall q | 0 <= q <= p && items[q].aliasOf.None? :: items[q].name !in AllNames(h)
  {
    var pool, tags := Pool(items), Tags(items);
    var f := ByKey(pool);
    ProposedInOrder(pool, f, tags, g, h);
    var k, l :| 0 <= k < l < |tags| && GroupsTag(pool, f, tags[k], g) && GroupsTag(pool, f, tags[l], h);
    var at := LabelFirst(pool, f, |pool|, k, l);
    p := RowsBefore(items, at);
    GroupNames(Bucket(items, tags[k]));
    GroupNames(Bucket(items, tags[l]));
    BucketNames(items, tags[k], items[p].name);
    PoolMeaning(items, items[p]);
    forall q | 0 <= q <= p && items[q].aliasOf.None? ensures items[q].name !in AllNames(h) {
      var a: nat :| a <= at && pool[a] == items[q];
      BucketNames(items, tags[l], items[q].name);
    }
  }
}
