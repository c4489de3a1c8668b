/**
 * Canonical JSON: the form under which dataset rows, labels and group keys are written and hashed.
 */
module CanonicalJson {
  import opened Wrappers
  import opened Strings
  import opened JsonText

  /** Assigning to this key of an object sets its prototype instead of a field. */
  const PROTO := "__proto__"

  const MAX_INDEX := 4_294_967_295

  datatype Step = Index(i: nat) | Key(key: string)

  datatype Kind = NonFiniteNumber | NonPlainObject | UndefinedField | UnsupportedValue

  datatype Fault = Fault(path: seq<Step>, kind: Kind)

  datatype Outcome = Ok(value: Value) | Err(fault: Fault)

  // ---- the order in which the engine enumerates keys ----

  predicate AllDigits(s: string) { forall i | 0 <= i < |s| :: '0' <= s[i] <= '9' }

  function Numeric(s: string): nat
    requires AllDigits(s)
  {
    if s == "" then 0 else 10 * Numeric(s[..|s| - 1]) + (s[|s| - 1] as int - '0' as int)
  }

  predicate IsNumeral(s: string) { s != "" && AllDigits(s) && (s == "0" || s[0] != '0') }

  /** Array indices come before all other keys. */
  predicate IsIndex(key: string) { IsNumeral(key) && Numeric(key) < MAX_INDEX }

  lemma {:induction false} NumeralPositive(s: string)
    requires IsNumeral(s) && s[0] != '0'
    ensures Numeric(s) >= 1
  {
    if |s| > 1 { NumeralPositive(s[..|s| - 1]); }
  }

  lemma DigitsSplit(x: int, d: int, y: int, e: int)
    requires 10 * x + d == 10 * y + e && 0 <= d < 10 && 0 <= e < 10
    ensures x == y && d == e
  {
  }

  /** Different numerals are different numbers. */
  lemma {:induction false} NumericInjective(a: string, b: string)
    requires IsNumeral(a) && IsNumeral(b) && Numeric(a) == Numeric(b)
    ensures a == b
  {
    var x, y, d, e := a[..|a| - 1], b[..|b| - 1], a[|a| - 1], b[|b| - 1];
    if x != "" { NumeralPositive(x); }
    if y != "" { NumeralPositive(y); }
    DigitsSplit(Numeric(x), d as int - '0' as int, Numeric(y), e as int - '0' as int);
    if x != "" && y != "" { NumericInjective(x, y); }
    assert a == x + [d] && b == y + [e];
  }

  predicate KeyBefore(a: string, b: string) {
    if IsIndex(a) then !IsIndex(b) || Numeric(a) < Numeric(b) else !IsIndex(b) && Leq(a, b) && a != b
  }

  lemma KeyBeforeTransitive(a: string, b: string, c: string)
    requires KeyBefore(a, b) && KeyBefore(b, c)
    ensures KeyBefore(a, c)
  {
    if !IsIndex(a) {
      LeqTransitive(a, b, c);
      if a == c { LeqAntisymmetric(a, b); }
    }
  }

  lemma KeyBeforeTotal(a: string, b: string)
    requires a != b
    ensures KeyBefore(a, b) || KeyBefore(b, a)
  {
    LeqTotal(a, b);
    if IsIndex(a) && IsIndex(b) && Numeric(a) == Numeric(b) { NumericInjective(a, b); }
  }

  lemma KeyBeforeAsymmetric(a: string, b: string)
    requires KeyBefore(a, b)
    ensures !KeyBefore(b, a)
  {
    if KeyBefore(b, a) && !IsIndex(a) { LeqAntisymmetric(a, b); }
  }

  ghost predicate InOrder(keys: seq<string>) { forall i, j | 0 <= i < j < |keys| :: KeyBefore(keys[i], keys[j]) }

  lemma InOrderDistinct(keys: seq<string>)
    requires InOrder(keys)
    ensures Distinct(keys)
  {
    forall i, j | 0 <= i < j < |keys| ensures keys[i] != keys[j] { KeyBeforeAsymmetric(keys[i], keys[j]); }
  }

  /** A new key goes among the indices by its number, and to the end otherwise. */
  function InsertKey(keys: seq<string>, key: string): seq<string> {
    if keys == [] || (IsIndex(key) && KeyBefore(key, keys[0])) then [key] + keys
    else [keys[0]] + InsertKey(keys[1..], key)
  }

  lemma {:induction false} InsertKeyElems(keys: seq<string>, key: string)
    ensures Elems(InsertKey(keys, key)) == Elems(keys) + {key}
  {
    if keys != [] {
      assert keys == [keys[0]] + keys[1..];
      if !(IsIndex(key) && KeyBefore(key, keys[0])) { InsertKeyElems(keys[1..], key); }
      var r := InsertKey(keys, key);
      forall x ensures x in r <==> x in keys || x == key {
        assert x in InsertKey(keys[1..], key) <==> x in Elems(InsertKey(keys[1..], key));
        assert x in keys[1..] <==> x in Elems(keys[1..]);
      }
    }
  }

  lemma {:induction false} InsertKeyInOrder(keys: seq<string>, key: string)
    requires InOrder(keys) && key !in keys
    requires forall k | k in keys :: IsIndex(key) || KeyBefore(k, key)
    ensures InOrder(InsertKey(keys, key))
  {
    if keys != [] {
      var first := keys[0];
      if IsIndex(key) && KeyBefore(key, first) {
        forall j | 0 < j < |keys| ensures KeyBefore(key, keys[j]) { KeyBeforeTransitive(key, first, keys[j]); }
      } else {
        InsertKeyInOrder(keys[1..], key);
        InsertKeyElems(keys[1..], key);
        KeyBeforeTotal(first, key);
        var rest := InsertKey(keys[1..], key);
        forall j | 0 <= j < |rest| ensures KeyBefore(first, rest[j]) {
          assert rest[j] in Elems(rest);
          if rest[j] != key {
            var m :| 0 <= m < |keys[1..]| && keys[1..][m] == rest[j];
            assert KeyBefore(keys[0], keys[m + 1]);
          }
        }
      }
    }
  }

  /** Keys can be put in order in one way only. */
  lemma {:induction false} InOrderUnique(a: seq<string>, b: seq<string>)
    requires InOrder(a) && InOrder(b) && Elems(a) == Elems(b)
    ensures a == b
  {
    EmptyElems(a);
    EmptyElems(b);
    if a != [] {
      assert a[0] in Elems(b) && b[0] in Elems(a);
      var i :| 0 <= i < |b| && b[i] == a[0];
      var j :| 0 <= j < |a| && a[j] == b[0];
      if i > 0 && j > 0 { KeyBeforeAsymmetric(a[0], b[0]); }
      InOrderDistinct(a);
      InOrderDistinct(b);
      forall x ensures x in Elems(a[1..]) <==> x in Elems(b[1..]) {
        assert x in Elems(a) <==> x == a[0] || x in a[1..];
        assert x in Elems(b) <==> x == b[0] || x in b[1..];
      }
      InOrderUnique(a[1..], b[1..]);
      assert a == [a[0]] + a[1..] && b == [b[0]] + b[1..];
    }
  }

  /** What enumerating an object shows after its keys were set in the given order. */
  function Enumerated(keys: seq<string>): (r: seq<string>)
    ensures Elems(r) == Elems(keys)
  {
    if keys == [] then []
    else
      var before, last := Enumerated(keys[..|keys| - 1]), keys[|keys| - 1];
      assert keys == keys[..|keys| - 1] + [last];
      assert Elems(keys) == Elems(keys[..|keys| - 1]) + {last};
      InsertKeyElems(before, last);
      InsertKey(before, last)
  }

  lemma {:induction false} EnumeratedInOrder(keys: seq<string>)
    requires StrictlySorted(keys)
    ensures InOrder(Enumerated(keys))
  {
    if keys != [] {
      var before, last := keys[..|keys| - 1], keys[|keys| - 1];
      EnumeratedInOrder(before);
      assert Elems(Enumerated(before)) == Elems(before);
      forall k | k in Enumerated(before) ensures k != last && (IsIndex(last) || KeyBefore(k, last)) {
        assert k in Elems(before);
        var i :| 0 <= i < |before| && before[i] == k;
        assert Leq(keys[i], keys[|keys| - 1]) && keys[i] != keys[|keys| - 1];
      }
      InsertKeyInOrder(Enumerated(before), last);
    }
  }

  /** The keys of a set in the order the engine enumerates them when they are set in ascending order. */
  ghost function Arranged(keys: set<string>): (r: seq<string>)
    ensures InOrder(r) && Elems(r) == keys && Distinct(r)
  {
    var r := Enumerated(Listing(keys));
    EnumeratedInOrder(Listing(keys));
    InOrderDistinct(r);
    r
  }

  // ---- canonicalisation ----

  /** Every record has exactly one value for each of its keys. */
  ghost predicate Proper(v: Value) {
    match v
    case List(items) => forall i | 0 <= i < |items| :: Proper(items[i])
    case Record(keys, fields, _) =>
      Distinct(keys) && Elems(keys) == fields.Keys && forall k | k in fields :: Proper(fields[k])
    case _ => true
  }

  /** What a caller can hand over. */
  type Given = v: Value | Proper(v) ghost witness Null

  function Field(v: Given, k: string): (f: Given)
    requires v.Record? && k in v.fields
    ensures f < v
  {
    v.fields[k]
  }

  function Item(v: Given, i: nat): (f: Given)
    requires v.List? && i < |v.items|
    ensures f < v
  {
    v.items[i]
  }

  /** The first objection met when fields are visited in ascending order. */
  ghost function FaultOf(v: Given, path: seq<Step>): Option<Fault>
    decreases v, 1
  {
    match v
    case NonFinite => Some(Fault(path, NonFiniteNumber))
    case Undefined => Some(Fault(path, UnsupportedValue))
    case Unsupported => Some(Fault(path, UnsupportedValue))
    case List(_) => FaultInItems(v, 0, path)
    case Record(keys, _, plain) =>
      if plain then FaultInFields(v, Sort(keys), path) else Some(Fault(path, NonPlainObject))
    case _ => None
  }

  ghost function FaultInItems(v: Given, n: nat, path: seq<Step>): Option<Fault>
    requires v.List? && n <= |v.items|
    decreases v, 0, |v.items| - n
  {
    if n == |v.items| then None
    else
      var fault := FaultOf(Item(v, n), path + [Index(n)]);
      if fault.Some? then fault else FaultInItems(v, n + 1, path)
  }

  ghost function FaultInFields(v: Given, keys: seq<string>, path: seq<Step>): Option<Fault>
    requires v.Record? && Elems(keys) <= v.fields.Keys
    decreases v, 0, |keys|
  {
    if keys == [] then None
    else
      assert keys[0] in Elems(keys) && Elems(keys[1..]) <= Elems(keys);
      var fault := FaultOfField(v, keys[0], path);
      if fault.Some? then fault else FaultInFields(v, keys[1..], path)
  }

  ghost function FaultOfField(v: Given, k: string, path: seq<Step>): Option<Fault>
    requires v.Record? && k in v.fields
    decreases v, 0, 0
  {
    if v.fields[k].Undefined? then Some(Fault(path + [Key(k)], UndefinedField)) else FaultOf(Field(v, k), path + [Key(k)])
  }

  /** The value with the keys of every record in order and without fields that set a prototype. */
  ghost function Clean(v: Given): (c: Given)
    decreases v
  {
    match v
    case List(items) => Value.List(seq(|items|, i requires 0 <= i < |items| => Clean(Item(v, i))))
    case Record(_, fields, _) =>
      Value.Record(Arranged(fields.Keys - {PROTO}), map k | k in fields && k != PROTO :: Clean(Field(v, k)),
                   PROTO in fields ==> !IsObject(fields[PROTO]))
    case _ => v
  }

  ghost function CanonicalForm(v: Given, path: seq<Step>): Outcome {
    match FaultOf(v, path)
    case Some(f) => Err(f)
    case None => Ok(Clean(v))
  }

  lemma CleanKind(v: Given)
    ensures (Clean(v).List? <==> v.List?) && (Clean(v).Record? <==> v.Record?) && (IsObject(v) || Clean(v) == v)
  {
  }

  lemma CleanKeys(v: Given)
    requires v.Record?
    ensures Clean(v).fields.Keys == v.fields.Keys - {PROTO}
  {
  }

  lemma CleanField(v: Given, k: string)
    requires v.Record? && k in v.fields && k != PROTO
    ensures k in Clean(v).fields && Clean(v).fields[k] == Clean(Field(v, k))
  {
  }

  /** result[key] = item */
  function Assign(result: Value, key: string, item: Value): Value
    requires result.Record?
  {
    if key == PROTO then result.(plain := !IsObject(item))
    else Value.Record(InsertKey(result.keys, key), result.fields[key := item], result.plain)
  }

  /** The record under construction after the given keys. */
  ghost predicate Built(v: Given, keys: seq<string>, result: Value)
    requires v.Record? && Elems(keys) <= v.fields.Keys
  {
    && result.Record? && InOrder(result.keys) && Elems(result.keys) == Elems(keys) - {PROTO} == result.fields.Keys
    && (forall k | k in result.fields :: k in v.fields && result.fields[k] == Clean(Field(v, k)))
    && (result.plain <==> (PROTO in keys ==> !IsObject(v.fields[PROTO])))
  }

  /** The keys before a place of a strictly sorted list come before its key in the default order. */
  lemma KeysBefore(sorted: seq<string>, n: nat, k: string)
    requires StrictlySorted(sorted) && n < |sorted| && k in Elems(sorted[..n])
    ensures k != sorted[n] && (IsIndex(sorted[n]) || KeyBefore(k, sorted[n]))
  {
    var i :| 0 <= i < n && sorted[i] == k;
  }

  lemma OneMoreElem(sorted: seq<string>, n: nat)
    requires n < |sorted|
    ensures Elems(sorted[..n + 1]) == Elems(sorted[..n]) + {sorted[n]} && sorted[n] in Elems(sorted)
  {
    assert sorted[..n + 1] == sorted[..n] + [sorted[n]];
  }

  lemma BuildKey(v: Given, before: seq<string>, key: string, result: Value)
    requires v.Record? && Elems(before) + {key} <= v.fields.Keys && Built(v, before, result) && key != PROTO
    requires forall k | k in before :: k != key && (IsIndex(key) || KeyBefore(k, key))
    ensures Built(v, before + [key], Assign(result, key, Clean(v.fields[key])))
  {
    InsertKeyElems(result.keys, key);
    forall k | k in result.keys ensures k != key && (IsIndex(key) || KeyBefore(k, key)) {
      assert k in Elems(result.keys);
    }
    InsertKeyInOrder(result.keys, key);
  }

  lemma BuildProto(v: Given, before: seq<string>, result: Value)
    requires v.Record? && Elems(before) + {PROTO} <= v.fields.Keys && Built(v, before, result) && PROTO !in before
    ensures Built(v, before + [PROTO], Assign(result, PROTO, Clean(v.fields[PROTO])))
  {
    CleanKind(Field(v, PROTO));
  }

  lemma BuildStep(v: Given, sorted: seq<string>, n: nat, result: Value)
    requires v.Record? && StrictlySorted(sorted) && Elems(sorted) <= v.fields.Keys && n < |sorted|
    requires Elems(sorted[..n]) <= v.fields.Keys && Built(v, sorted[..n], result)
    ensures sorted[n] in v.fields && Elems(sorted[..n + 1]) <= v.fields.Keys
    ensures Built(v, sorted[..n + 1], Assign(result, sorted[n], Clean(v.fields[sorted[n]])))
  {
    OneMoreElem(sorted, n);
    assert sorted[..n + 1] == sorted[..n] + [sorted[n]];
    forall k | k in sorted[..n] ensures k != sorted[n] && (IsIndex(sorted[n]) || KeyBefore(k, sorted[n])) {
      KeysBefore(sorted, n, k);
    }
    if sorted[n] == PROTO { BuildProto(v, sorted[..n], result); } else { BuildKey(v, sorted[..n], sorted[n], result); }
  }

  lemma BuiltIsClean(v: Given, keys: seq<string>, result: Value)
    requires v.Record? && Elems(keys) == v.fields.Keys && Built(v, keys, result)
    ensures result == Clean(v)
  {
    var c := Clean(v);
    CleanKind(v);
    CleanKeys(v);
    InOrderUnique(result.keys, c.keys);
    forall k | k in result.fields ensures c.fields[k] == result.fields[k] { CleanField(v, k); }
    assert result.fields == c.fields;
    assert PROTO in keys <==> PROTO in v.fields by { assert PROTO in keys <==> PROTO in Elems(keys); }
  }

  /** The recursion of the program. */
  method Canonicalize(v: Given, path: seq<Step>) returns (r: Outcome)
    ensures r == CanonicalForm(v, path)
    decreases v, 1
  {
    match v
    case NonFinite => r := Err(Fault(path, NonFiniteNumber));
    case Undefined => r := Err(Fault(path, UnsupportedValue));
    case Unsupported => r := Err(Fault(path, UnsupportedValue));
    case List(_) => r := CanonicalizeItems(v, path);
    case Record(_, _, _) => r := CanonicalizeFields(v, path);
    case _ => r := Ok(v);
  }

  lemma DoneIsClean(v: Given, done: seq<Value>)
    requires v.List? && |done| == |v.items| && forall i | 0 <= i < |done| :: done[i] == Clean(Item(v, i))
    ensures Clean(v) == Value.List(done)
  {
    assert done == Clean(v).items;
  }

  lemma FaultStep(v: Given, n: nat, path: seq<Step>)
    requires v.List? && n < |v.items|
    ensures FaultInItems(v, n, path) ==
            var fault := FaultOf(Item(v, n), path + [Index(n)]); if fault.Some? then fault else FaultInItems(v, n + 1, path)
  {
  }

  method CanonicalizeItems(v: Given, path: seq<Step>) returns (r: Outcome)
    requires v.List?
    ensures r == CanonicalForm(v, path)
    decreases v, 0
  {
    var done: seq<Value> := [];
    for n := 0 to |v.items|
      invariant |done| == n && forall i | 0 <= i < n :: done[i] == Clean(Item(v, i))
      invariant FaultInItems(v, 0, path) == FaultInItems(v, n, path)
    {
      FaultStep(v, n, path);
      var item := Canonicalize(Item(v, n), path + [Index(n)]);
      if item.Err? { return item; }
      done := done + [item.value];
    }
    DoneIsClean(v, done);
    r := Ok(Value.List(done));
  }

  lemma FieldFaultStep(v: Given, sorted: seq<string>, n: nat, path: seq<Step>)
    requires v.Record? && n < |sorted| && Elems(sorted[n..]) <= v.fields.Keys
    ensures sorted[n] in v.fields && Elems(sorted[n + 1..]) <= v.fields.Keys
    ensures FaultInFields(v, sorted[n..], path) ==
            var fault := FaultOfField(v, sorted[n], path); if fault.Some? then fault else FaultInFields(v, sorted[n + 1..], path)
  {
    assert sorted[n] in Elems(sorted[n..]) && sorted[n..][1..] == sorted[n + 1..];
    assert Elems(sorted[n + 1..]) <= Elems(sorted[n..]);
  }

  /** The loop has come to the n-th key without a fault. */
  ghost predicate Filling(v: Given, path: seq<Step>, sorted: seq<string>, n: nat, result: Value)
    requires v.Record?
  {
    && n <= |sorted| && sorted == Sort(v.keys) && StrictlySorted(sorted) && Elems(sorted) == v.fields.Keys
    && Elems(sorted[..n]) <= v.fields.Keys && Built(v, sorted[..n], result)
    && Elems(sorted[n..]) <= v.fields.Keys && FaultInFields(v, sorted, path) == FaultInFields(v, sorted[n..], path)
  }

  lemma FillStart(v: Given, path: seq<Step>)
    requires v.Record?
    ensures Filling(v, path, Sort(v.keys), 0, Value.Record([], map[], true))
  {
    SortIsStrictlySorted(v.keys);
    assert Sort(v.keys)[0..] == Sort(v.keys) && Elems(Sort(v.keys)[..0]) == {};
  }

  lemma FillStep(v: Given, path: seq<Step>, sorted: seq<string>, n: nat, result: Value)
    requires v.Record? && v.plain && Filling(v, path, sorted, n, result) && n < |sorted|
    ensures sorted[n] in v.fields
    ensures FaultOfField(v, sorted[n], path).Some? ==> CanonicalForm(v, path) == Err(FaultOfField(v, sorted[n], path).value)
    ensures FaultOfField(v, sorted[n], path).None? ==>
              Filling(v, path, sorted, n + 1, Assign(result, sorted[n], Clean(v.fields[sorted[n]])))
  {
    FieldFaultStep(v, sorted, n, path);
    BuildStep(v, sorted, n, result);
  }

  lemma FillEnd(v: Given, path: seq<Step>, sorted: seq<string>, result: Value)
    requires v.Record? && v.plain && Filling(v, path, sorted, |sorted|, result)
    ensures CanonicalForm(v, path) == Ok(result)
  {
    assert sorted[..|sorted|] == sorted;
    BuiltIsClean(v, sorted, result);
  }

  /** The result object is filled key by key. */
  method CanonicalizeFields(v: Given, path: seq<Step>) returns (r: Outcome)
    requires v.Record?
    ensures r == CanonicalForm(v, path)
    decreases v, 0
  {
    if !v.plain { return Err(Fault(path, NonPlainObject)); }
    var sorted, result := Sort(v.keys), Value.Record([], map[], true);
    FillStart(v, path);
    for n := 0 to |sorted|
      invariant Filling(v, path, sorted, n, result)
    {
      var key := sorted[n];
      FillStep(v, path, sorted, n, result);
      if v.fields[key].Undefined? { return Err(Fault(path + [Key(key)], UndefinedField)); }
      var item := Canonicalize(Field(v, key), path + [Key(key)]);
      if item.Err? { return item; }
      result := Assign(result, key, item.value);
    }
    FillEnd(v, path, sorted, result);
    r := Ok(result);
  }
}
