/** What the proposed merges promise: one stem per group, the longest name on top, nothing lost, nothing shared. */
module MerchantTruncationTheorems {
  import opened MerchantTruncation

  function Tags(items: seq<Item>): seq<string> {
    var pool := Pool(items);
    Labels(pool, ByKey(pool), |pool|)
  }

  function Bucket(items: seq<Item>, tag: string): seq<Item> {
    var pool := Pool(items);
    Members(pool, ByKey(pool), tag, |pool|)
  }

  lemma {:induction false} InBucket(pool: seq<Item>, f: map<string, string>, tag: string, n: nat, m: Item)
    requires n <= |pool| && Names(pool) <= f.Keys
    ensures m in Members(pool, f, tag, n) <==> m in pool[..n] && f[m.name] == tag
  {
    if n > 0 {
      InBucket(pool, f, tag, n - 1, m);
      assert pool[..n] == pool[..n - 1] + [pool[n - 1]];
    }
  }

  lemma {:induction false} TagOfEvery(pool: seq<Item>, f: map<string, string>, n: nat, j: nat)
    requires j < n <= |pool| && Names(pool) <= f.Keys
    ensures f[pool[j].name] in Labels(pool, f, n)
  {
    if j < n - 1 {
      TagOfEvery(pool, f, n - 1, j);
    } else if !Leads(pool, f, j) {
      var i :| 0 <= i < j && f[pool[i].name] == f[pool[j].name];
      TagOfEvery(pool, f, j, i);
    }
  }

  lemma {:induction false} TagsDiffer(pool: seq<Item>, f: map<string, string>, n: nat, i: nat, j: nat)
    requires n <= |pool| && Names(pool) <= f.Keys && i < j < |Labels(pool, f, n)|
    ensures Labels(pool, f, n)[i] != Labels(pool, f, n)[j]
  {
    if j < |Labels(pool, f, n - 1)| {
      TagsDiffer(pool, f, n - 1, i, j);
    } else {
      LabelsInBuckets(pool, f, n - 1, i);
    }
  }

  predicate GroupsTag(pool: seq<Item>, f: map<string, string>, t: string, g: Group)
    requires Names(pool) <= f.Keys
  {
    var members := Members(pool, f, t, |pool|);
    |members| >= 2 && g == GroupOf(members)
  }

  lemma {:induction false} ProposalsAre(pool: seq<Item>, f: map<string, string>, tags: seq<string>, g: Group)
    requires Names(pool) <= f.Keys
    ensures g in Proposals(pool, f, tags) <==> exists t | t in tags :: GroupsTag(pool, f, t, g)
  {
    if tags != [] {
      var rest, last := tags[..|tags| - 1], tags[|tags| - 1];
      ProposalsAre(pool, f, rest, g);
      assert forall t :: t in tags <==> t in rest || t == last;
      assert g in Proposals(pool, f, tags) <==> g in Proposals(pool, f, rest) || GroupsTag(pool, f, last, g);
    }
  }

  predicate Descending(s: seq<Group>) { forall i, j | 0 <= i < j < |s| :: s[i].netTotal >= s[j].netTotal }

  lemma {:induction false} InsertKeeps(g: Group, s: seq<Group>)
    ensures multiset(InsertGroup(g, s)) == multiset(s) + multiset{g}
  {
    if s != [] && s[|s| - 1].netTotal < g.netTotal {
      InsertKeeps(g, s[..|s| - 1]);
      assert s == s[..|s| - 1] + [s[|s| - 1]];
    }
  }

  lemma {:induction false} InsertRanks(g: Group, s: seq<Group>)
    requires Descending(s)
    ensures Descending(InsertGroup(g, s))
  {
    if s != [] && s[|s| - 1].netTotal < g.netTotal {
      var t, z := s[..|s| - 1], s[|s| - 1];
      var r := InsertGroup(g, t);
      InsertRanks(g, t);
      InsertKeeps(g, t);
      forall i | 0 <= i < |r| ensures r[i].netTotal >= z.netTotal {
        assert r[i] in multiset(r);
        if r[i] != g { assert r[i] in t; }
      }
    }
  }

  lemma {:induction false} RankedRanks(s: seq<Group>)
    ensures Descending(Ranked(s)) && multiset(Ranked(s)) == multiset(s)
  {
    if s != [] {
      RankedRanks(s[..|s| - 1]);
      InsertRanks(s[|s| - 1], Ranked(s[..|s| - 1]));
      InsertKeeps(s[|s| - 1], Ranked(s[..|s| - 1]));
      assert s == s[..|s| - 1] + [s[|s| - 1]];
    }
  }

  lemma SameElements(s: seq<Group>, t: seq<Group>, g: Group)
    requires multiset(s) == multiset(t)
    ensures g in s <==> g in t
  {
    assert g in s <==> g in multiset(s);
    assert g in t <==> g in multiset(t);
  }

  /** The tag `t` stands for the candidate `g`. */
  predicate Stands(items: seq<Item>, t: string, g: Group) {
    t in Tags(items) && GroupsTag(Pool(items), ByKey(Pool(items)), t, g)
  }

  /** The candidates are the buckets of two or more, one per tag. */
  lemma CandidatesAre(items: seq<Item>, g: Group)
    ensures g in Candidates(items) <==> exists t :: Stands(items, t, g)
  {
    var pool := Pool(items);
    var s := Proposals(pool, ByKey(pool), Tags(items));
    RankedRanks(s);
    SameElements(s, Ranked(s), g);
    ProposalsAre(pool, ByKey(pool), Tags(items), g);
    forall t | t in Tags(items) ensures GroupsTag(pool, ByKey(pool), t, g) <==> Stands(items, t, g) {}
  }

  function AllNames(g: Group): seq<string> { [g.canonical] + g.aliases }

  lemma SortedNames(members: seq<Item>, x: string)
    ensures x in NamesOf(Sorted(members)) <==> exists m :: m in members && m.name == x
  {
    SortedSorts(members);
    var s := Sorted(members);
    if x in NamesOf(s) {
      var i :| 0 <= i < |s| && NamesOf(s)[i] == x;
      assert s[i] in multiset(members);
    }
    if m :| m in members && m.name == x {
      assert m in multiset(s);
      var i :| 0 <= i < |s| && s[i] == m;
      assert NamesOf(s)[i] == x;
    }
  }

  lemma GroupNames(members: seq<Item>)
    requires |members| > 0
    ensures AllNames(GroupOf(members)) == NamesOf(Sorted(members)) && |AllNames(GroupOf(members))| == |members|
    ensures forall x :: x in AllNames(GroupOf(members)) <==> exists m :: m in members && m.name == x
  {
    var s := Sorted(members);
    assert AllNames(GroupOf(members)) == NamesOf(s);
    forall x ensures x in NamesOf(s) <==> exists m :: m in members && m.name == x {
      SortedNames(members, x);
    }
  }

  lemma CanonicalIsLongest(members: seq<Item>, a: string)
    requires |members| > 0 && a in AllNames(GroupOf(members))
    ensures |a| <= |GroupOf(members).canonical|
  {
    SortedSorts(members);
    GroupNames(members);
    var s := Sorted(members);
    var i :| 0 <= i < |s| && NamesOf(s)[i] == a;
    assert i > 0 ==> Before(s[0], s[i]);
  }

  lemma TagIsAName(items: seq<Item>, t: string)
    requires t in Tags(items)
    ensures t in Names(Pool(items)) && Key(Names(Pool(items)), t) == t
  {
    var pool := Pool(items);
    var names := Names(pool);
    var i :| 0 <= i < |Tags(items)| && Tags(items)[i] == t;
    LabelsInBuckets(pool, ByKey(pool), |pool|, i);
    var j :| 0 <= j < |pool| && ByKey(pool)[pool[j].name] == t;
    var x := pool[j].name;
    KeyTruncates(names, x);
    KeyIsShortest(names, x);
    KeyIsShortest(names, t);
    if t != x {
      assert Key(names, t) <= x;
      assert t <= Key(names, t) <= t;
    }
  }

  lemma BucketNames(items: seq<Item>, t: string, x: string)
    requires t in Tags(items)
    ensures (exists m :: m in Bucket(items, t) && m.name == x) <==> x in Names(Pool(items)) && Key(Names(Pool(items)), x) == t
  {
    var pool := Pool(items);
    var f := ByKey(pool);
    assert pool[..|pool|] == pool;
    forall m ensures m in Bucket(items, t) <==> m in pool && f[m.name] == t {
      InBucket(pool, f, t, |pool|, m);
    }
    if x in Names(pool) && Key(Names(pool), x) == t {
      var m :| m in pool && m.name == x;
      assert m in Bucket(items, t);
    }
  }

  /**
   * Every group has at least one alias, its canonical name is a longest one, and one of its names is a prefix of all
   * the others.
   */
  lemma GroupsHaveOneStem(items: seq<Item>, g: Group)
    requires g in Candidates(items)
    ensures |g.aliases| >= 1 && forall a | a in AllNames(g) :: |a| <= |g.canonical|
    ensures exists stem :: stem in AllNames(g) && forall a | a in AllNames(g) :: stem <= a
  {
    CandidatesAre(items, g);
    var t :| Stands(items, t, g);
    GroupNames(Bucket(items, t));
    BucketNames(items, t, t);
    TagIsAName(items, t);
    assert t in AllNames(g);
    forall a | a in AllNames(g) ensures t <= a && |a| <= |g.canonical| {
      CanonicalIsLongest(Bucket(items, t), a);
      BucketNames(items, t, a);
      KeyIsShortest(Names(Pool(items)), a);
    }
  }

  /** Two listed names are proposed together exactly when they are linked by truncations and come from two rows. */
  lemma ProposedTogether(items: seq<Item>, i: nat, j: nat)
    requires i < j < |Pool(items)|
    ensures var names := Names(Pool(items));
            var a, b := Pool(items)[i].name, Pool(items)[j].name;
            (exists g :: g in Candidates(items) && a in AllNames(g) && b in AllNames(g)) <==> Key(names, a) == Key(names, b)
  {
    var pool := Pool(items);
    var names, f := Names(pool), ByKey(pool);
    var a, b := pool[i].name, pool[j].name;
    if Key(names, a) == Key(names, b) {
      var t := Key(names, a);
      TagOfEvery(pool, f, |pool|, i);
      TwoMembers(pool, f, t, i, j);
      var g := GroupOf(Bucket(items, t));
      assert Stands(items, t, g);
      CandidatesAre(items, g);
      GroupNames(Bucket(items, t));
      BucketNames(items, t, a);
      BucketNames(items, t, b);
      assert g in Candidates(items) && a in AllNames(g) && b in AllNames(g);
    }
    forall g | g in Candidates(items) && a in AllNames(g) && b in AllNames(g) ensures Key(names, a) == Key(names, b) {
      NamesShareKey(items, g, a, b);
    }
  }

  lemma NamesShareKey(items: seq<Item>, g: Group, a: string, b: string)
    requires g in Candidates(items) && a in AllNames(g) && b in AllNames(g)
    ensures a in Names(Pool(items)) && b in Names(Pool(items)) && Key(Names(Pool(items)), a) == Key(Names(Pool(items)), b)
    ensures Stands(items, Key(Names(Pool(items)), a), g)
  {
    CandidatesAre(items, g);
    var t :| Stands(items, t, g);
    GroupNames(Bucket(items, t));
    BucketNames(items, t, a);
    BucketNames(items, t, b);
  }

  lemma {:induction false} TwoMembers(pool: seq<Item>, f: map<string, string>, tag: string, i: nat, j: nat)
    requires i < j < |pool| && Names(pool) <= f.Keys && f[pool[i].name] == f[pool[j].name] == tag
    ensures |Members(pool, f, tag, |pool|)| >= 2
  {
    MembersGrow(pool, f, tag, 0, i);
    MembersGrow(pool, f, tag, i + 1, j);
    MembersGrow(pool, f, tag, j + 1, |pool|);
  }

  lemma {:induction false} MembersGrow(pool: seq<Item>, f: map<string, string>, tag: string, m: nat, n: nat)
    requires m <= n <= |pool| && Names(pool) <= f.Keys
    ensures |Members(pool, f, tag, m)| <= |Members(pool, f, tag, n)|
  {
    if m < n { MembersGrow(pool, f, tag, m, n - 1); }
  }

  /** No name is proposed in two groups. */
  lemma GroupsAreDisjoint(items: seq<Item>, g: Group, h: Group, x: string)
    requires g in Candidates(items) && h in Candidates(items) && x in AllNames(g) && x in AllNames(h)
    ensures g == h
  {
    NamesShareKey(items, g, x, x);
    NamesShareKey(items, h, x, x);
  }

  // ---- conservation ----

  function GroupCount(g: Group): int { g.transactionCount }

  function GroupNet(g: Group): int { g.netTotal }

  function GroupSum(s: seq<Group>, v: Group -> int): int { if s == [] then 0 else v(s[0]) + GroupSum(s[1..], v) }

  lemma {:induction false} SumAppend(s: seq<Item>, t: seq<Item>, w: Item -> int)
    ensures Sum(s + t, w) == Sum(s, w) + Sum(t, w)
  {
    if s == [] {
      assert s + t == t;
    } else {
      SumAppend(s[1..], t, w);
      assert (s + t)[1..] == s[1..] + t;
    }
  }

  lemma {:induction false} GroupSumAppend(s: seq<Group>, g: Group, v: Group -> int)
    ensures GroupSum(s + [g], v) == GroupSum(s, v) + v(g)
  {
    if s != [] {
      GroupSumAppend(s[1..], g, v);
      assert (s + [g])[1..] == s[1..] + [g];
    }
  }

  /** The rows of the given buckets that are proposed for no merge. */
  function Alone(pool: seq<Item>, f: map<string, string>, tags: seq<string>): seq<Item>
    requires Names(pool) <= f.Keys
  {
    if tags == [] then []
    else
      var members := Members(pool, f, tags[|tags| - 1], |pool|);
      Alone(pool, f, tags[..|tags| - 1]) + (if |members| < 2 then members else [])
  }

  /** The worth of the members of the given tags among the first `n` rows. */
  function Spread(pool: seq<Item>, f: map<string, string>, tags: seq<string>, n: nat, w: Item -> int): int
    requires Names(pool) <= f.Keys && n <= |pool|
  {
    if tags == [] then 0
    else Spread(pool, f, tags[..|tags| - 1], n, w) + Sum(Members(pool, f, tags[|tags| - 1], n), w)
  }

  predicate Differ(tags: seq<string>) { forall i, j | 0 <= i < j < |tags| :: tags[i] != tags[j] }

  predicate Covers(pool: seq<Item>, f: map<string, string>, tags: seq<string>, n: nat)
    requires Names(pool) <= f.Keys && n <= |pool|
  {
    forall j | 0 <= j < n :: f[pool[j].name] in tags
  }

  lemma TagsCover(pool: seq<Item>, f: map<string, string>)
    requires Names(pool) <= f.Keys
    ensures Differ(Labels(pool, f, |pool|)) && Covers(pool, f, Labels(pool, f, |pool|), |pool|)
  {
    var tags := Labels(pool, f, |pool|);
    forall i, j | 0 <= i < j < |tags| ensures tags[i] != tags[j] {
      TagsDiffer(pool, f, |pool|, i, j);
    }
    forall j | 0 <= j < |pool| ensures f[pool[j].name] in tags {
      TagOfEvery(pool, f, |pool|, j);
    }
  }

  /** The group of some members is worth what they are worth. */
  ghost predicate Agrees(w: Item -> int, v: Group -> int) { forall members | |members| > 0 :: v(GroupOf(members)) == Sum(members, w) }

  lemma MemberStep(pool: seq<Item>, f: map<string, string>, tag: string, n: nat, w: Item -> int)
    requires Names(pool) <= f.Keys && n < |pool|
    ensures Sum(Members(pool, f, tag, n + 1), w)
         == Sum(Members(pool, f, tag, n), w) + (if tag == f[pool[n].name] then w(pool[n]) else 0)
  {
    var now := Members(pool, f, tag, n);
    assert Members(pool, f, tag, n + 1) == if tag == f[pool[n].name] then now + [pool[n]] else now;
    SumAppend(now, [pool[n]], w);
  }

  lemma LastOrRest(tags: seq<string>, tag: string)
    requires Differ(tags) && tags != []
    ensures tag in tags <==> tag in tags[..|tags| - 1] || tag == tags[|tags| - 1]
    ensures !(tag in tags[..|tags| - 1] && tag == tags[|tags| - 1])
  {
    assert tags == tags[..|tags| - 1] + [tags[|tags| - 1]];
  }

  lemma {:induction false} SpreadStep(pool: seq<Item>, f: map<string, string>, tags: seq<string>, n: nat, w: Item -> int)
    requires Names(pool) <= f.Keys && Differ(tags) && n < |pool|
    ensures Spread(pool, f, tags, n + 1, w) == Spread(pool, f, tags, n, w) + (if f[pool[n].name] in tags then w(pool[n]) else 0)
  {
    if tags != [] {
      var rest, last := tags[..|tags| - 1], tags[|tags| - 1];
      SpreadStep(pool, f, rest, n, w);
      MemberStep(pool, f, last, n, w);
      LastOrRest(tags, f[pool[n].name]);
    }
  }

  lemma {:induction false} EmptySpread(pool: seq<Item>, f: map<string, string>, tags: seq<string>, w: Item -> int)
    requires Names(pool) <= f.Keys
    ensures Spread(pool, f, tags, 0, w) == 0
  {
    if tags != [] { EmptySpread(pool, f, tags[..|tags| - 1], w); }
  }

  lemma SumNext(pool: seq<Item>, n: nat, w: Item -> int)
    requires n < |pool|
    ensures Sum(pool[..n + 1], w) == Sum(pool[..n], w) + w(pool[n])
  {
    SumAppend(pool[..n], [pool[n]], w);
    assert pool[..n + 1] == pool[..n] + [pool[n]];
  }

  lemma CoversLess(pool: seq<Item>, f: map<string, string>, tags: seq<string>, n: nat)
    requires Names(pool) <= f.Keys && 0 < n <= |pool| && Covers(pool, f, tags, n)
    ensures Covers(pool, f, tags, n - 1)
  {
  }

  lemma {:induction false} SpreadIsTotal(pool: seq<Item>, f: map<string, string>, tags: seq<string>, n: nat, w: Item -> int)
    requires Names(pool) <= f.Keys && Differ(tags) && n <= |pool| && Covers(pool, f, tags, n)
    ensures Spread(pool, f, tags, n, w) == Sum(pool[..n], w)
  {
    if n == 0 {
      EmptySpread(pool, f, tags, w);
      assert pool[..0] == [];
    } else {
      CoversLess(pool, f, tags, n);
      SpreadIsTotal(pool, f, tags, n - 1, w);
      SpreadStep(pool, f, tags, n - 1, w);
      SumNext(pool, n - 1, w);
    }
  }

  lemma PairProposed(pool: seq<Item>, f: map<string, string>, tags: seq<string>, rest: seq<string>, members: seq<Item>, w: Item -> int, v: Group -> int)
    requires Names(pool) <= f.Keys && tags != [] && rest == tags[..|tags| - 1]
    requires members == Members(pool, f, tags[|tags| - 1], |pool|) && |members| >= 2 && v(GroupOf(members)) == Sum(members, w)
    ensures GroupSum(Proposals(pool, f, tags), v) == GroupSum(Proposals(pool, f, rest), v) + Sum(members, w)
    ensures Alone(pool, f, tags) == Alone(pool, f, rest)
  {
    assert Proposals(pool, f, tags) == Proposals(pool, f, rest) + [GroupOf(members)];
    GroupSumAppend(Proposals(pool, f, rest), GroupOf(members), v);
  }

  lemma LoneNotProposed(pool: seq<Item>, f: map<string, string>, tags: seq<string>)
    requires Names(pool) <= f.Keys && tags != [] && |Members(pool, f, tags[|tags| - 1], |pool|)| < 2
    ensures Proposals(pool, f, tags) == Proposals(pool, f, tags[..|tags| - 1])
  {
  }

  lemma LoneIsAlone(pool: seq<Item>, f: map<string, string>, tags: seq<string>)
    requires Names(pool) <= f.Keys && tags != [] && |Members(pool, f, tags[|tags| - 1], |pool|)| < 2
    ensures Alone(pool, f, tags) == Alone(pool, f, tags[..|tags| - 1]) + Members(pool, f, tags[|tags| - 1], |pool|)
  {
  }

  lemma LoneLeft(pool: seq<Item>, f: map<string, string>, tags: seq<string>, rest: seq<string>, members: seq<Item>, w: Item -> int)
    requires Names(pool) <= f.Keys && tags != [] && rest == tags[..|tags| - 1]
    requires members == Members(pool, f, tags[|tags| - 1], |pool|) && |members| < 2
    ensures Proposals(pool, f, tags) == Proposals(pool, f, rest)
    ensures Sum(Alone(pool, f, tags), w) == Sum(Alone(pool, f, rest), w) + Sum(members, w)
  {
    LoneNotProposed(pool, f, tags);
    LoneIsAlone(pool, f, tags);
    SumAppend(Alone(pool, f, rest), members, w);
  }

  lemma {:induction false} SpreadSplits(pool: seq<Item>, f: map<string, string>, tags: seq<string>, w: Item -> int, v: Group -> int)
    requires Names(pool) <= f.Keys && Agrees(w, v)
    ensures Spread(pool, f, tags, |pool|, w) == GroupSum(Proposals(pool, f, tags), v) + Sum(Alone(pool, f, tags), w)
  {
    if tags != [] {
      var rest, members := tags[..|tags| - 1], Members(pool, f, tags[|tags| - 1], |pool|);
      SpreadSplits(pool, f, rest, w, v);
      if |members| < 2 { LoneLeft(pool, f, tags, rest, members, w); } else { PairProposed(pool, f, tags, rest, members, w, v); }
    }
  }

  lemma {:induction false} InsertKeepsSums(g: Group, s: seq<Group>, v: Group -> int)
    ensures GroupSum(InsertGroup(g, s), v) == GroupSum(s, v) + v(g)
  {
    if s == [] || s[|s| - 1].netTotal >= g.netTotal {
      GroupSumAppend(s, g, v);
    } else {
      var t, z := s[..|s| - 1], s[|s| - 1];
      InsertKeepsSums(g, t, v);
      GroupSumAppend(InsertGroup(g, t), z, v);
      GroupSumAppend(t, z, v);
      assert t + [z] == s;
    }
  }

  lemma {:induction false} RankedKeepsSums(s: seq<Group>, v: Group -> int)
    ensures GroupSum(Ranked(s), v) == GroupSum(s, v)
  {
    if s != [] {
      var t, z := s[..|s| - 1], s[|s| - 1];
      RankedKeepsSums(t, v);
      InsertKeepsSums(z, Ranked(t), v);
      GroupSumAppend(t, z, v);
      assert t + [z] == s;
    }
  }

  lemma ConservedOver(pool: seq<Item>, f: map<string, string>, tags: seq<string>, w: Item -> int, v: Group -> int)
    requires Names(pool) <= f.Keys && Differ(tags) && Covers(pool, f, tags, |pool|) && Agrees(w, v)
    ensures GroupSum(Ranked(Proposals(pool, f, tags)), v) + Sum(Alone(pool, f, tags), w) == Sum(pool, w)
  {
    SpreadIsTotal(pool, f, tags, |pool|, w);
    SpreadSplits(pool, f, tags, w, v);
    RankedKeepsSums(Proposals(pool, f, tags), v);
    assert pool[..|pool|] == pool;
  }

  lemma Conserved(items: seq<Item>, w: Item -> int, v: Group -> int)
    requires Agrees(w, v)
    ensures GroupSum(Candidates(items), v) + Sum(Alone(Pool(items), ByKey(Pool(items)), Tags(items)), w) == Sum(Pool(items), w)
  {
    TagsCover(Pool(items), ByKey(Pool(items)));
    ConservedOver(Pool(items), ByKey(Pool(items)), Tags(items), w, v);
  }

  /** The proposed groups and the rows left alone add up to the whole list, in transactions and in money. */
  lemma TotalsAreConserved(items: seq<Item>)
    ensures var alone := Alone(Pool(items), ByKey(Pool(items)), Tags(items));
            && GroupSum(Candidates(items), GroupNet) + Sum(alone, NetOf) == Sum(Pool(items), NetOf)
            && GroupSum(Candidates(items), GroupCount) + Sum(alone, CountOf) == Sum(Pool(items), CountOf)
  {
    Conserved(items, NetOf, GroupNet);
    Conserved(items, CountOf, GroupCount);
  }

  /** The screen shows the largest groups first. */
  lemma LargestFirst(items: seq<Item>, i: nat, j: nat)
    requires i <= j < |Candidates(items)|
    ensures Candidates(items)[i].netTotal >= Candidates(items)[j].netTotal
  {
    RankedRanks(Proposals(Pool(items), ByKey(Pool(items)), Tags(items)));
  }
}
