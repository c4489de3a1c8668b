/** Strings as the program compares them: blank test, code-unit order and sorting. */
module Strings {

  /** The characters that ECMAScript `trim` removes. */
  predicate IsWhitespace(c: char) {
    var n := c as int;
    (9 <= n <= 13) || n == 32 || n == 0xA0 || n == 0x1680 || (0x2000 <= n <= 0x200A) ||
    n == 0x2028 || n == 0x2029 || n == 0x202F || n == 0x205F || n == 0x3000 || n == 0xFEFF
  }

  predicate Blank(s: string) {
    forall i | 0 <= i < |s| :: IsWhitespace(s[i])
  }

  function TrimStart(s: string): string {
    if s != [] && IsWhitespace(s[0]) then TrimStart(s[1..]) else s
  }

  function TrimEnd(s: string): string {
    if s != [] && IsWhitespace(s[|s| - 1]) then TrimEnd(s[..|s| - 1]) else s
  }

  function Trim(s: string): string { TrimEnd(TrimStart(s)) }

  predicate HasEdges(s: string) { s != [] && !IsWhitespace(s[0]) && !IsWhitespace(s[|s| - 1]) }

  lemma NothingToTrim(s: string)
    requires HasEdges(s)
    ensures Trim(s) == s
  {
  }

  lemma {:induction false} TrimEndMeaning(s: string)
    ensures TrimEnd(s) <= s && Blank(s[|TrimEnd(s)|..])
    ensures TrimEnd(s) != "" ==> !IsWhitespace(TrimEnd(s)[|TrimEnd(s)| - 1])
  {
    if s != "" && IsWhitespace(s[|s| - 1]) {
      var front, n := s[..|s| - 1], |TrimEnd(s)|;
      TrimEndMeaning(front);
      assert s[n..] == front[n..] + [s[|s| - 1]];
    } else {
      assert s[|s|..] == "";
    }
  }

  lemma {:induction false} TrimStartMeaning(s: string)
    ensures |TrimStart(s)| <= |s| && TrimStart(s) == s[|s| - |TrimStart(s)|..] && Blank(s[..|s| - |TrimStart(s)|])
    ensures TrimStart(s) != "" ==> !IsWhitespace(TrimStart(s)[0])
  {
    if s != "" && IsWhitespace(s[0]) {
      TrimStartMeaning(s[1..]);
      assert s[..|s| - |TrimStart(s)|] == [s[0]] + s[1..][..|s| - 1 - |TrimStart(s)|];
    }
  }

  /** Trimming takes blanks off both ends and leaves nothing or a text with solid edges. */
  lemma TrimMeaning(s: string) returns (before: string, after: string)
    ensures s == before + Trim(s) + after && Blank(before) && Blank(after)
    ensures Trim(s) == "" || HasEdges(Trim(s))
  {
    TrimStartMeaning(s);
    var rest := TrimStart(s);
    TrimEndMeaning(rest);
    before, after := s[..|s| - |rest|], rest[|Trim(s)|..];
    assert rest == rest[..|Trim(s)|] + rest[|Trim(s)|..];
    assert Trim(s) != "" ==> Trim(s)[0] == rest[0];
  }

  /** Nothing is left exactly of a blank text. */
  lemma TrimEmpty(s: string)
    ensures Trim(s) == "" <==> Blank(s)
  {
    var before, after := TrimMeaning(s);
    if Trim(s) != "" { assert s[|before|] == Trim(s)[0]; }
  }

  /** Lexicographic order by character code, the default order of `sort`. */
  predicate Leq(a: string, b: string) {
    if a == [] then true
    else if b == [] then false
    else a[0] < b[0] || (a[0] == b[0] && Leq(a[1..], b[1..]))
  }

  lemma {:induction false} LeqTotal(a: string, b: string)
    ensures Leq(a, b) || Leq(b, a)
  {
    if a != [] && b != [] { LeqTotal(a[1..], b[1..]); }
  }

  lemma {:induction false} LeqAntisymmetric(a: string, b: string)
    requires Leq(a, b) && Leq(b, a)
    ensures a == b
  {
    if a != [] && b != [] {
      LeqAntisymmetric(a[1..], b[1..]);
      assert a == [a[0]] + a[1..] && b == [b[0]] + b[1..];
    }
  }

  lemma {:induction false} LeqTransitive(a: string, b: string, c: string)
    requires Leq(a, b) && Leq(b, c)
    ensures Leq(a, c)
  {
    if a != [] && b != [] && c != [] && a[0] == b[0] == c[0] {
      LeqTransitive(a[1..], b[1..], c[1..]);
    }
  }

  ghost function Elems<T>(xs: seq<T>): set<T> { set x | x in xs }

  /** Ascending without repetition. */
  ghost predicate StrictlySorted(xs: seq<string>) {
    forall i, j | 0 <= i < j < |xs| :: Leq(xs[i], xs[j]) && xs[i] != xs[j]
  }

  function Insert(x: string, xs: seq<string>): (r: seq<string>)
    ensures Elems(r) == Elems(xs) + {x}
  {
    if xs == [] then [x]
    else if Leq(x, xs[0]) then [x] + xs
    else
      var r := Insert(x, xs[1..]);
      assert Elems(xs) == {xs[0]} + Elems(xs[1..]);
      assert Elems([xs[0]] + r) == {xs[0]} + Elems(r);
      [xs[0]] + r
  }

  lemma {:induction false} InsertSorted(x: string, xs: seq<string>)
    requires StrictlySorted(xs) && x !in xs
    ensures StrictlySorted(Insert(x, xs))
  {
    if xs != [] {
      if Leq(x, xs[0]) {
        forall j | 0 <= j < |xs| ensures Leq(x, xs[j]) {
          if j > 0 { LeqTransitive(x, xs[0], xs[j]); }
        }
      } else {
        InsertSorted(x, xs[1..]);
        LeqTotal(x, xs[0]);
        var r := Insert(x, xs[1..]);
        forall j | 0 <= j < |r| ensures Leq(xs[0], r[j]) && xs[0] != r[j] {
          assert r[j] in Elems(r);
          assert r[j] == x || r[j] in xs[1..];
        }
      }
    }
  }

  /** The sorted copy of a duplicate-free list. */
  function Sort(xs: seq<string>): (r: seq<string>)
    ensures Elems(r) == Elems(xs)
  {
    if xs == [] then []
    else
      assert Elems(xs) == {xs[0]} + Elems(xs[1..]);
      Insert(xs[0], Sort(xs[1..]))
  }

  ghost predicate Distinct<T>(xs: seq<T>) {
    forall i, j | 0 <= i < j < |xs| :: xs[i] != xs[j]
  }

  lemma {:induction false} SortIsStrictlySorted(xs: seq<string>)
    requires Distinct(xs)
    ensures StrictlySorted(Sort(xs))
  {
    if xs != [] {
      SortIsStrictlySorted(xs[1..]);
      assert xs[0] !in xs[1..];
      assert xs[0] !in Elems(Sort(xs[1..]));
      InsertSorted(xs[0], Sort(xs[1..]));
    }
  }

  lemma EmptyElems<T>(xs: seq<T>)
    ensures Elems(xs) == {} <==> xs == []
  {
    if xs != [] { assert xs[0] in Elems(xs); }
  }

  /** A set has only one ascending listing. */
  lemma {:induction false} StrictlySortedUnique(a: seq<string>, b: seq<string>)
    requires StrictlySorted(a) && StrictlySorted(b) && Elems(a) == Elems(b)
    ensures a == b
  {
    if a == [] {
      EmptyElems(b);
    } else {
      assert a[0] in Elems(b);
      assert b != [];
      assert b[0] in Elems(a);
      LeqAntisymmetricHeads(a, b);
      forall x ensures x in Elems(a[1..]) <==> x in Elems(b[1..]) {
        assert x in Elems(a) <==> x == a[0] || x in a[1..];
        assert x in Elems(b) <==> x == b[0] || x in b[1..];
      }
      StrictlySortedUnique(a[1..], b[1..]);
      assert a == [a[0]] + a[1..] && b == [b[0]] + b[1..];
    }
  }

  lemma LeqAntisymmetricHeads(a: seq<string>, b: seq<string>)
    requires a != [] && b != [] && StrictlySorted(a) && StrictlySorted(b)
    requires a[0] in b && b[0] in a
    ensures a[0] == b[0]
  {
    var i :| 0 <= i < |b| && b[i] == a[0];
    var j :| 0 <= j < |a| && a[j] == b[0];
    if i > 0 && j > 0 {
      LeqAntisymmetric(a[0], b[0]);
    }
  }

  /** The ascending listing of a set of strings. */
  ghost function Listing(s: set<string>): (r: seq<string>)
    ensures StrictlySorted(r) && Elems(r) == s
  {
    if s == {} then []
    else
      var x :| x in s;
      var rest := Listing(s - {x});
      assert x !in Elems(rest);
      InsertSorted(x, rest);
      Insert(x, rest)
  }

  lemma SortIsListing(xs: seq<string>)
    requires Distinct(xs)
    ensures Sort(xs) == Listing(Elems(xs))
  {
    SortIsStrictlySorted(xs);
    StrictlySortedUnique(Sort(xs), Listing(Elems(xs)));
  }

  /** Puts a set of strings in order. */
  method SortedListing(s: set<string>) returns (listing: seq<string>)
    ensures listing == Listing(s)
  {
    listing := [];
    var pending := s;
    assert Elems(listing) == {} == s - pending;
    while pending != {}
      invariant pending <= s && StrictlySorted(listing) && Elems(listing) == s - pending
    {
      var x :| x in pending;
      assert x !in Elems(listing);
      InsertSorted(x, listing);
      listing, pending := Insert(x, listing), pending - {x};
    }
    StrictlySortedUnique(listing, Listing(s));
  }
}
