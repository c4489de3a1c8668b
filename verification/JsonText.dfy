/**
 * JSON texts as JSON.stringify writes them, and the proof that a text can be read in one way only.
 *
 * A record lists its own keys in the order the engine enumerates them.
 */
module JsonText {
  import opened Strings
  import J = JsonRepair

  predicate IsNumberChar(c: char) { '0' <= c <= '9' || c == '-' || c == '+' || c == '.' || c == 'e' }

  /** A finite number, by the text ECMAScript writes for it. */
  type NumberText = s: string | s != "" && forall i | 0 <= i < |s| :: IsNumberChar(s[i]) witness "0"

  datatype Value =
    | Null
    | Boolean(b: bool)
    | Number(text: NumberText)
    | Text(s: string)
    | List(items: seq<Value>)
    | Record(keys: seq<string>, fields: map<string, Value>, plain: bool)
    | NonFinite
    | Undefined
    | Unsupported

  function QuoteChar(c: char): string {
    if c == '"' then "\\\"" else if c == '\\' then "\\\\"
    else if c as int == 8 then "\\b" else if c as int == 12 then "\\f"
    else if c as int < J.SPACE then J.Escape(c)
    else [c]
  }

  function QuoteChars(s: string): string {
    if s == "" then "" else QuoteChar(s[0]) + QuoteChars(s[1..])
  }

  function Quote(s: string): string { "\"" + QuoteChars(s) + "\"" }

  /** No field lacks its key, and no leaf is outside JSON. */
  ghost predicate Printable(v: Value) {
    match v
    case Null => true
    case Boolean(_) => true
    case Number(_) => true
    case Text(_) => true
    case List(items) => forall i | 0 <= i < |items| :: Printable(items[i])
    case Record(keys, fields, _) =>
      Distinct(keys) && Elems(keys) == fields.Keys && forall k | k in fields :: Printable(fields[k])
    case _ => false
  }

  /** A value with a JSON text. */
  type Json = v: Value | Printable(v) ghost witness Null

  predicate IsObject(v: Value) { v.List? || v.Record? }

  function Size(v: Value): nat
    requires IsObject(v)
  {
    if v.List? then |v.items| else |v.keys|
  }

  function Child(v: Json, n: nat): (c: Json)
    requires IsObject(v) && n < Size(v)
    ensures c < v
  {
    if v.List? then v.items[n]
    else
      assert v.keys[n] in Elems(v.keys);
      v.fields[v.keys[n]]
  }

  function Head(v: Value, n: nat): string
    requires IsObject(v) && n < Size(v)
  {
    (if n == 0 then "" else ",") + (if v.List? then "" else Quote(v.keys[n]) + ":")
  }

  /** The text from the n-th child on. */
  function ShowFrom(v: Json, n: nat): string
    requires IsObject(v) && n <= Size(v)
    decreases v, 0, Size(v) - n
  {
    if n == Size(v) then "" else Head(v, n) + Show(Child(v, n)) + ShowFrom(v, n + 1)
  }

  function Show(v: Json): string
    decreases v, 1
  {
    match v
    case Null => "null"
    case Boolean(b) => if b then "true" else "false"
    case Number(text) => text
    case Text(s) => Quote(s)
    case List(_) => "[" + ShowFrom(v, 0) + "]"
    case Record(_, _, _) => "{" + ShowFrom(v, 0) + "}"
  }

  // ---- the text can be read back ----

  /** A number cannot run on into this text. */
  predicate Stops(s: string) { s != "" ==> !IsNumberChar(s[0]) }

  predicate Closes(s: string) { s != "" && (s[0] == ']' || s[0] == '}') }

  lemma QuoteCharPrefix(c: char, d: char, x: string, y: string)
    requires QuoteChar(c) + x == QuoteChar(d) + y
    ensures c == d && x == y
  {
    var a, b := QuoteChar(c), QuoteChar(d);
    var all := a + x;
    assert all[0] == a[0] == b[0];
    if |a| > 1 && |b| > 1 {
      assert all[1] == a[1] == b[1];
      if |a| == 6 { assert all[4] == a[4] == b[4] && all[5] == a[5] == b[5]; }
    }
    assert c == d;
    assert x == all[|a|..] && y == all[|a|..];
  }

  lemma CancelLeft(a: string, x: string, y: string)
    requires a + x == a + y
    ensures x == y
  {
    assert x == (a + x)[|a|..] && y == (a + y)[|a|..];
  }

  lemma QuotedOpens(s: string, z: string)
    requires s != ""
    ensures (QuoteChars(s) + z)[0] != '"'
  {
    assert (QuoteChars(s) + z)[0] == QuoteChar(s[0])[0];
  }

  /** The body of a quoted string ends where its closing quote stands. */
  lemma {:induction false} QuotePrefix(s: string, t: string, x: string, y: string)
    requires QuoteChars(s) + ("\"" + x) == QuoteChars(t) + ("\"" + y)
    ensures s == t && x == y
  {
    assert "" + ("\"" + x) == "\"" + x && "" + ("\"" + y) == "\"" + y;
    if s == "" && t == "" {
      CancelLeft("\"", x, y);
    } else if s == "" {
      QuotedOpens(t, "\"" + y);
    } else if t == "" {
      QuotedOpens(s, "\"" + x);
    } else {
      J.Assoc(QuoteChar(s[0]), QuoteChars(s[1..]), "\"" + x);
      J.Assoc(QuoteChar(t[0]), QuoteChars(t[1..]), "\"" + y);
      QuoteCharPrefix(s[0], t[0], QuoteChars(s[1..]) + ("\"" + x), QuoteChars(t[1..]) + ("\"" + y));
      QuotePrefix(s[1..], t[1..], x, y);
      assert s == [s[0]] + s[1..] && t == [t[0]] + t[1..];
    }
  }

  lemma QuoteText(s: string, x: string)
    ensures Quote(s) + x == "\"" + (QuoteChars(s) + ("\"" + x))
  {
    J.Assoc("\"" + QuoteChars(s), "\"", x);
    J.Assoc("\"", QuoteChars(s), "\"" + x);
  }

  lemma LongerRunsOn(a: string, b: string, x: string, y: string)
    requires a + x == b + y && |a| < |b|
    ensures x != "" && x[0] == b[|a|]
  {
    assert x[0] == (a + x)[|a|] == (b + y)[|a|];
  }

  lemma NumberPrefix(a: NumberText, b: NumberText, x: string, y: string)
    requires a + x == b + y && Stops(x) && Stops(y)
    ensures a == b && x == y
  {
    if |a| < |b| { LongerRunsOn(a, b, x, y); }
    if |b| < |a| { LongerRunsOn(b, a, y, x); }
    assert a == (a + x)[..|a|] && b == (b + y)[..|b|];
    CancelLeft(a, x, y);
  }

  /** The same value up to the order of keys, fields named in skip apart. */
  ghost predicate Same(v: Value, w: Value, skip: set<string>)
    decreases v
  {
    match v
    case List(items) => w.List? && |items| == |w.items| && forall i | 0 <= i < |items| :: Same(items[i], w.items[i], skip)
    case Record(_, fields, _) =>
      w.Record? && fields.Keys - skip == w.fields.Keys - skip &&
      forall k | k in fields && k !in skip && k in w.fields :: Same(fields[k], w.fields[k], skip)
    case _ => v == w
  }

  predicate OpensLike(c: char, v: Value) {
    match v
    case Null => c == 'n'
    case Boolean(b) => c == if b then 't' else 'f'
    case Number(_) => IsNumberChar(c)
    case Text(_) => c == '"'
    case List(_) => c == '['
    case Record(_, _, _) => c == '{'
    case _ => false
  }

  lemma ShowOpens(v: Json)
    ensures Show(v) != "" && OpensLike(Show(v)[0], v)
  {
  }

  /** What follows a child: a comma or the closing bracket. */
  lemma RestStops(v: Json, n: nat, s: string)
    requires IsObject(v) && 0 < n <= Size(v) && Closes(s)
    ensures Stops(ShowFrom(v, n) + s)
    ensures n < Size(v) ==> (ShowFrom(v, n) + s)[0] == ','
    ensures n == Size(v) ==> (ShowFrom(v, n) + s) == s
  {
    if n < Size(v) { assert Head(v, n)[0] == ','; }
  }

  lemma FirstOpens(v: Json, s: string)
    requires IsObject(v) && 0 < Size(v)
    ensures !Closes(ShowFrom(v, 0) + s)
  {
    ShowOpens(Child(v, 0));
    var all := ShowFrom(v, 0) + s;
    if v.List? { assert all[0] == Show(Child(v, 0))[0]; } else { assert all[0] == Head(v, 0)[0] == '"'; }
  }

  lemma ObjectText(v: Json, s: string)
    requires IsObject(v)
    ensures Show(v) + s == if v.List? then "[" + (ShowFrom(v, 0) + ("]" + s)) else "{" + (ShowFrom(v, 0) + ("}" + s))
  {
    var open, close := if v.List? then "[" else "{", if v.List? then "]" else "}";
    J.Assoc(open + ShowFrom(v, 0), close, s);
    J.Assoc(open, ShowFrom(v, 0), close + s);
  }

  lemma ChildText(v: Json, n: nat, s: string)
    requires IsObject(v) && n < Size(v)
    ensures ShowFrom(v, n) + s == Head(v, n) + (Show(Child(v, n)) + (ShowFrom(v, n + 1) + s))
  {
    J.Assoc(Head(v, n) + Show(Child(v, n)), ShowFrom(v, n + 1), s);
    J.Assoc(Head(v, n), Show(Child(v, n)), ShowFrom(v, n + 1) + s);
  }

  /** A text followed by anything but the rest of a number can be read in one way only. */
  lemma {:induction false} ShowPrefix(v: Json, w: Json, s: string, t: string)
    requires Show(v) + s == Show(w) + t && Stops(s) && Stops(t)
    ensures Same(v, w, {}) && s == t
    decreases v, 1
  {
    SameKind(v, w, s, t);
    if IsObject(v) {
      ObjectText(v, s);
      ObjectText(w, t);
      var open, close := if v.List? then "[" else "{", if v.List? then "]" else "}";
      CancelLeft(open, ShowFrom(v, 0) + (close + s), ShowFrom(w, 0) + (close + t));
      FromPrefix(v, w, 0, close + s, close + t);
      CancelLeft(close, s, t);
      SameChildren(v, w);
    } else {
      LeafPrefix(v, w, s, t);
    }
  }

  lemma SameKind(v: Json, w: Json, s: string, t: string)
    requires Show(v) + s == Show(w) + t
    ensures (v.List? <==> w.List?) && (v.Record? <==> w.Record?) && (v.Text? <==> w.Text?) && (v.Number? <==> w.Number?)
    ensures v.Null? || v.Boolean? ==> v == w
  {
    ShowOpens(v);
    ShowOpens(w);
    assert (Show(v) + s)[0] == Show(v)[0] == Show(w)[0];
  }

  lemma LeafPrefix(v: Json, w: Json, s: string, t: string)
    requires Show(v) + s == Show(w) + t && Stops(s) && Stops(t) && !IsObject(v) && !IsObject(w)
    ensures Same(v, w, {}) && s == t
  {
    SameKind(v, w, s, t);
    if v.Number? {
      NumberPrefix(v.text, w.text, s, t);
    } else if v.Text? {
      QuoteText(v.s, s);
      QuoteText(w.s, t);
      CancelLeft("\"", QuoteChars(v.s) + ("\"" + s), QuoteChars(w.s) + ("\"" + t));
      QuotePrefix(v.s, w.s, s, t);
    } else {
      CancelLeft(Show(v), s, t);
    }
  }

  ghost predicate SameChild(v: Json, w: Json, m: nat)
    requires IsObject(v) && IsObject(w) && m < Size(v) && m < Size(w)
  {
    (v.Record? && w.Record? ==> v.keys[m] == w.keys[m]) && Same(Child(v, m), Child(w, m), {})
  }

  ghost predicate AgreeFrom(v: Json, w: Json, n: nat)
    requires IsObject(v) && IsObject(w) && Size(v) == Size(w) && n <= Size(v)
    decreases Size(v) - n
  {
    n == Size(v) || (SameChild(v, w, n) && AgreeFrom(v, w, n + 1))
  }

  lemma {:induction false} AgreeAt(v: Json, w: Json, n: nat, m: nat)
    requires IsObject(v) && IsObject(w) && Size(v) == Size(w)
    requires n <= m < Size(v) && AgreeFrom(v, w, n)
    ensures SameChild(v, w, m)
    decreases m - n
  {
    if n < m { AgreeAt(v, w, n + 1, m); }
  }

  lemma SameChildren(v: Json, w: Json)
    requires (v.List? && w.List?) || (v.Record? && w.Record?)
    requires Size(v) == Size(w) && AgreeFrom(v, w, 0)
    ensures Same(v, w, {})
  {
    forall m: nat | m < Size(v) ensures SameChild(v, w, m) { AgreeAt(v, w, 0, m); }
    if v.List? {
      forall i | 0 <= i < |v.items| ensures Same(v.items[i], w.items[i], {}) { assert SameChild(v, w, i); }
    } else {
      assert v.keys == w.keys by { forall m | 0 <= m < |v.keys| ensures v.keys[m] == w.keys[m] { assert SameChild(v, w, m); } }
      forall k | k in v.fields ensures Same(v.fields[k], w.fields[k], {}) {
        assert k in Elems(v.keys);
        var m: nat :| m < |v.keys| && v.keys[m] == k;
        assert SameChild(v, w, m);
      }
    }
  }

  lemma {:induction false} FromPrefix(v: Json, w: Json, n: nat, s: string, t: string)
    requires (v.List? && w.List?) || (v.Record? && w.Record?)
    requires n <= Size(v) && n <= Size(w)
    requires ShowFrom(v, n) + s == ShowFrom(w, n) + t && Closes(s) && Closes(t)
    ensures Size(v) == Size(w) && s == t && AgreeFrom(v, w, n)
    decreases v, 0, Size(v) - n, 1
  {
    if n == Size(v) || n == Size(w) {
      EndsTogether(v, w, n, s, t);
    } else {
      ChildrenAgree(v, w, n, s, t);
      RestAgrees(v, w, n, s, t);
    }
  }

  lemma {:induction false} RestAgrees(v: Json, w: Json, n: nat, s: string, t: string)
    requires (v.List? && w.List?) || (v.Record? && w.Record?)
    requires n < Size(v) && n < Size(w) && SameChild(v, w, n)
    requires ShowFrom(v, n + 1) + s == ShowFrom(w, n + 1) + t && Closes(s) && Closes(t)
    ensures Size(v) == Size(w) && s == t && AgreeFrom(v, w, n)
    decreases v, 0, Size(v) - n, 0
  {
    FromPrefix(v, w, n + 1, s, t);
  }

  lemma {:induction false} ChildrenAgree(v: Json, w: Json, n: nat, s: string, t: string)
    requires (v.List? && w.List?) || (v.Record? && w.Record?)
    requires n < Size(v) && n < Size(w)
    requires ShowFrom(v, n) + s == ShowFrom(w, n) + t && Closes(s) && Closes(t)
    ensures SameChild(v, w, n) && ShowFrom(v, n + 1) + s == ShowFrom(w, n + 1) + t
    decreases v, 0, Size(v) - n, 0
  {
    var x, y := ChildPrefix(v, w, n, s, t);
    ShowPrefix(Child(v, n), Child(w, n), x, y);
  }

  /** The n-th children stand under one key, and their texts with what follows are equal. */
  lemma ChildPrefix(v: Json, w: Json, n: nat, s: string, t: string) returns (x: string, y: string)
    requires (v.List? && w.List?) || (v.Record? && w.Record?)
    requires n < Size(v) && n < Size(w)
    requires ShowFrom(v, n) + s == ShowFrom(w, n) + t && Closes(s) && Closes(t)
    ensures v.Record? ==> v.keys[n] == w.keys[n]
    ensures x == ShowFrom(v, n + 1) + s && y == ShowFrom(w, n + 1) + t
    ensures Show(Child(v, n)) + x == Show(Child(w, n)) + y && Stops(x) && Stops(y)
  {
    x, y := ShowFrom(v, n + 1) + s, ShowFrom(w, n + 1) + t;
    ChildText(v, n, s);
    ChildText(w, n, t);
    HeadPrefix(v, w, n, Show(Child(v, n)) + x, Show(Child(w, n)) + y);
    RestStops(v, n + 1, s);
    RestStops(w, n + 1, t);
  }

  lemma EndsTogether(v: Json, w: Json, n: nat, s: string, t: string)
    requires (v.List? && w.List?) || (v.Record? && w.Record?)
    requires n <= Size(v) && n <= Size(w) && (n == Size(v) || n == Size(w))
    requires ShowFrom(v, n) + s == ShowFrom(w, n) + t && Closes(s) && Closes(t)
    ensures Size(v) == Size(w) && s == t
  {
    if n > 0 {
      RestStops(v, n, s);
      RestStops(w, n, t);
    } else {
      assert "" + s == s && "" + t == t;
      if 0 < Size(v) { FirstOpens(v, s); }
      if 0 < Size(w) { FirstOpens(w, t); }
    }
  }

  lemma HeadText(v: Value, n: nat, a: string)
    requires v.Record? && n < Size(v)
    ensures Head(v, n) + a == (if n == 0 then "" else ",") + ("\"" + (QuoteChars(v.keys[n]) + ("\"" + (":" + a))))
  {
    var sep := if n == 0 then "" else ",";
    J.Assoc(sep, Quote(v.keys[n]) + ":", a);
    J.Assoc(Quote(v.keys[n]), ":", a);
    QuoteText(v.keys[n], ":" + a);
  }

  lemma HeadPrefix(v: Value, w: Value, n: nat, a: string, b: string)
    requires (v.List? && w.List?) || (v.Record? && w.Record?)
    requires n < Size(v) && n < Size(w) && Head(v, n) + a == Head(w, n) + b
    ensures (v.Record? ==> v.keys[n] == w.keys[n]) && a == b
  {
    if v.List? {
      CancelLeft(Head(v, n), a, b);
    } else {
      HeadText(v, n, a);
      HeadText(w, n, b);
      var sep := if n == 0 then "" else ",";
      var x, y := QuoteChars(v.keys[n]) + ("\"" + (":" + a)), QuoteChars(w.keys[n]) + ("\"" + (":" + b));
      CancelLeft(sep, "\"" + x, "\"" + y);
      CancelLeft("\"", x, y);
      QuotePrefix(v.keys[n], w.keys[n], ":" + a, ":" + b);
      CancelLeft(":", a, b);
    }
  }

  // ---- a text is one line ----

  lemma {:induction false} QuoteHasNoBreak(s: string)
    ensures '\n' !in QuoteChars(s)
  {
    if s != "" { QuoteHasNoBreak(s[1..]); }
  }

  /** A JSON text has no line feed, whatever its strings hold. */
  lemma {:induction false} ShowHasNoBreak(v: Json)
    ensures '\n' !in Show(v)
    decreases v, 1
  {
    match v
    case Text(s) => QuoteHasNoBreak(s);
    case List(_) => FromHasNoBreak(v, 0);
    case Record(_, _, _) => FromHasNoBreak(v, 0);
    case _ =>
  }

  lemma HeadHasNoBreak(v: Json, n: nat)
    requires IsObject(v) && n < Size(v)
    ensures '\n' !in Head(v, n)
  {
    if v.Record? { QuoteHasNoBreak(v.keys[n]); }
  }

  lemma JoinedHaveNoBreak(a: string, b: string, c: string)
    requires '\n' !in a && '\n' !in b && '\n' !in c
    ensures '\n' !in a + b + c
  {
  }

  lemma {:induction false} FromHasNoBreak(v: Json, n: nat)
    requires IsObject(v) && n <= Size(v)
    ensures '\n' !in ShowFrom(v, n)
    decreases v, 0, Size(v) - n
  {
    if n < Size(v) {
      HeadHasNoBreak(v, n);
      ShowHasNoBreak(Child(v, n));
      FromHasNoBreak(v, n + 1);
      JoinedHaveNoBreak(Head(v, n), Show(Child(v, n)), ShowFrom(v, n + 1));
    }
  }

  lemma BreakApart(a: string, b: string, x: string, y: string)
    requires '\n' !in a && '\n' !in b && a + ("\n" + x) == b + ("\n" + y)
    ensures a == b && x == y
  {
    if |a| < |b| { LongerRunsOn(a, b, "\n" + x, "\n" + y); }
    if |b| < |a| { LongerRunsOn(b, a, "\n" + y, "\n" + x); }
    assert a == (a + ("\n" + x))[..|a|] && b == (b + ("\n" + y))[..|b|];
    CancelLeft(a, "\n" + x, "\n" + y);
    CancelLeft("\n", x, y);
  }

  // ---- a strict reader (section 7 of RFC 8259) ----

  function Units(s: string): (r: seq<J.Token>)
    ensures |r| == |s| && forall i | 0 <= i < |s| :: r[i] == J.Unit(s[i] as int)
  {
    seq(|s|, i requires 0 <= i < |s| => J.Unit(s[i] as int))
  }

  lemma CharIsRead(r: J.Reading, c: char)
    requires r.at == J.Within
    ensures J.ReadAll(true, r, QuoteChar(c)) == J.Reading(J.Within, r.tokens + [J.Unit(c as int)])
  {
    var q := QuoteChar(c);
    if |q| == 6 {
      J.ReadsUnicodeEscape(r, c);
    } else if |q| == 2 {
      J.ReadsTwo(r, q[0], q[1]);
      assert q == [q[0], q[1]];
    } else {
      ReadsOne(r, c);
    }
  }

  lemma UnitsSplit(before: seq<J.Token>, s: string)
    requires s != ""
    ensures before + [J.Unit(s[0] as int)] + Units(s[1..]) == before + Units(s)
  {
    assert Units(s) == [J.Unit(s[0] as int)] + Units(s[1..]);
  }

  lemma {:induction false} CharsAreRead(r: J.Reading, s: string)
    requires r.at == J.Within
    ensures J.ReadAll(true, r, QuoteChars(s)) == J.Reading(J.Within, r.tokens + Units(s))
    decreases |s|
  {
    if s == "" {
      assert r.tokens + Units(s) == r.tokens;
    } else {
      J.ReadAppends(true, r, QuoteChar(s[0]), QuoteChars(s[1..]));
      CharIsRead(r, s[0]);
      CharsAreRead(J.Reading(J.Within, r.tokens + [J.Unit(s[0] as int)]), s[1..]);
      UnitsSplit(r.tokens, s);
    }
  }

  /** A strict reader gets from a quoted string its very characters. */
  lemma QuoteIsRead(s: string)
    ensures J.ReadAll(true, J.START, Quote(s)) ==
            J.Reading(J.Between, [J.Open] + Units(s) + [J.Close])
  {
    var start := J.Reading(J.Within, [J.Open]);
    var within := J.Reading(J.Within, [J.Open] + Units(s));
    J.ReadAppends(true, J.START, "\"" + QuoteChars(s), "\"");
    J.ReadAppends(true, J.START, "\"", QuoteChars(s));
    ReadsOne(J.START, '"');
    assert J.Read(true, J.START, '"') == start;
    CharsAreRead(start, s);
    ReadsOne(within, '"');
  }

  lemma ReadsOne(r: J.Reading, c: char)
    ensures J.ReadAll(true, r, [c]) == J.Read(true, r, c)
  {
    assert [c][1..] == "";
    assert J.ReadAll(true, J.Read(true, r, c), "") == J.Read(true, r, c);
  }
}
