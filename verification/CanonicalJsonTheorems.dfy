/** What canonical JSON promises: texts tell values apart, and hashes of texts are as good as the values. */
module CanonicalJsonTheorems {
  import opened Wrappers
  import opened Strings
  import opened JsonText
  import opened CanonicalJson
  import Components
  import DatasetSplit
  import DatasetSplitTheorems

  // ---- what is refused ----

  /** No leaf outside JSON and no record with a prototype of its own, at any depth. */
  ghost predicate Acceptable(v: Given)
    decreases v
  {
    match v
    case List(items) => forall i | 0 <= i < |items| :: Acceptable(Item(v, i))
    case Record(_, fields, plain) => plain && forall k | k in fields :: Acceptable(Field(v, k))
    case NonFinite => false
    case Undefined => false
    case Unsupported => false
    case _ => true
  }

  /** The part of a value that a path leads to. */
  ghost function At(v: Given, path: seq<Step>): Option<Given>
    decreases |path|
  {
    if path == [] then Some(v)
    else
      match path[0]
      case Index(i) => if v.List? && i < |v.items| then At(Item(v, i), path[1..]) else None
      case Key(k) => if v.Record? && k in v.fields then At(Field(v, k), path[1..]) else None
  }

  predicate Offends(v: Value, kind: Kind) {
    match kind
    case NonFiniteNumber => v.NonFinite?
    case NonPlainObject => v.Record? && !v.plain
    case UndefinedField => v.Undefined?
    case UnsupportedValue => v.Undefined? || v.Unsupported?
  }

  /** The fault names a part of v and rightly so. */
  ghost predicate Points(v: Given, path: seq<Step>, f: Fault) {
    path <= f.path && At(v, f.path[|path|..]).Some? && Offends(At(v, f.path[|path|..]).value, f.kind)
  }

  /** A value is refused exactly when part of it is unacceptable, and the fault leads to such a part. */
  lemma {:induction false} FaultMeaning(v: Given, path: seq<Step>)
    ensures FaultOf(v, path).None? <==> Acceptable(v)
    ensures FaultOf(v, path).Some? ==> Points(v, path, FaultOf(v, path).value)
    decreases v, 1
  {
    match v
    case List(_) =>
      assert At(v, []) == Some(v);
      FaultInItemsMeaning(v, 0, path);
    case Record(keys, fields, plain) =>
      if plain {
        FaultInFieldsMeaning(v, Sort(keys), path);
        forall k ensures k in Sort(keys) <==> k in fields { assert k in Elems(Sort(keys)) <==> k in fields.Keys; }
      } else {
        assert path[|path|..] == [];
      }
    case _ => assert path[|path|..] == [];
  }

  lemma PointsBelow(v: Given, w: Given, step: Step, path: seq<Step>, f: Fault)
    requires At(v, [step]) == Some(w) && Points(w, path + [step], f)
    ensures Points(v, path, f)
  {
    var rest := f.path[|path + [step]|..];
    assert f.path[|path|..] == [step] + rest by { assert f.path[..|path| + 1] == path + [step]; }
    assert ([step] + rest)[1..] == rest && [step][1..] == [];
    assert path <= f.path;
  }

  lemma {:induction false} FaultInItemsMeaning(v: Given, n: nat, path: seq<Step>)
    requires v.List? && n <= |v.items|
    ensures FaultInItems(v, n, path).None? <==> forall i | n <= i < |v.items| :: Acceptable(Item(v, i))
    ensures FaultInItems(v, n, path).Some? ==> Points(v, path, FaultInItems(v, n, path).value)
    decreases v, 0, |v.items| - n
  {
    if n < |v.items| {
      FaultMeaning(Item(v, n), path + [Index(n)]);
      FaultInItemsMeaning(v, n + 1, path);
      var fault := FaultOf(Item(v, n), path + [Index(n)]);
      if fault.Some? {
        assert [Index(n)][1..] == [];
        PointsBelow(v, Item(v, n), Index(n), path, fault.value);
      }
    }
  }

  lemma {:induction false} FaultInFieldsMeaning(v: Given, keys: seq<string>, path: seq<Step>)
    requires v.Record? && Elems(keys) <= v.fields.Keys
    ensures FaultInFields(v, keys, path).None? <==> forall k | k in keys && k in v.fields :: Acceptable(Field(v, k))
    ensures FaultInFields(v, keys, path).Some? ==> Points(v, path, FaultInFields(v, keys, path).value)
    decreases v, 0, |keys|
  {
    if keys != [] {
      var k := keys[0];
      assert k in Elems(keys) && Elems(keys[1..]) <= Elems(keys);
      assert forall x :: x in keys <==> x == k || x in keys[1..];
      FaultMeaning(Field(v, k), path + [Key(k)]);
      FaultInFieldsMeaning(v, keys[1..], path);
      var fault := FaultOfField(v, k, path);
      if fault.Some? {
        assert [Key(k)][1..] == [];
        if v.fields[k].Undefined? { assert fault.value.path[|path + [Key(k)]|..] == []; }
        PointsBelow(v, Field(v, k), Key(k), path, fault.value);
      }
    }
  }

  // ---- the text of a canonical form ----

  lemma {:induction false} CleanIsJson(v: Given)
    requires Acceptable(v)
    ensures Printable(Clean(v))
    decreases v
  {
    match v
    case List(items) => forall i | 0 <= i < |items| { CleanIsJson(Item(v, i)); }
    case Record(_, fields, _) => forall k | k in fields && k != PROTO { CleanIsJson(Field(v, k)); }
    case _ =>
  }

  /** canonicalJson of the program, for what it does not refuse. */
  ghost function CanonicalText(v: Given): string
    requires Acceptable(v)
  {
    CleanIsJson(v);
    Show(Clean(v))
  }

  lemma {:induction false} SameOfClean(v: Given, w: Given)
    requires Same(Clean(v), Clean(w), {})
    ensures Same(v, w, {PROTO})
    decreases v
  {
    CleanKind(v);
    CleanKind(w);
    if v.List? {
      SameItemsOfClean(v, w);
      forall i | 0 <= i < |v.items| ensures Same(v.items[i], w.items[i], {PROTO}) { SameOfClean(Item(v, i), Item(w, i)); }
    } else if v.Record? {
      SameFieldsOfClean(v, w);
      forall k | k in v.fields && k != PROTO && k in w.fields ensures Same(v.fields[k], w.fields[k], {PROTO}) {
        SameOfClean(Field(v, k), Field(w, k));
      }
    }
  }

  lemma SameItemsOfClean(v: Given, w: Given)
    requires v.List? && w.List? && Same(Clean(v), Clean(w), {})
    ensures |v.items| == |w.items| && forall i | 0 <= i < |v.items| :: Same(Clean(Item(v, i)), Clean(Item(w, i)), {})
  {
    forall i | 0 <= i < |v.items| ensures Same(Clean(Item(v, i)), Clean(Item(w, i)), {}) {
      assert Clean(v).items[i] == Clean(Item(v, i)) && Clean(w).items[i] == Clean(Item(w, i));
    }
  }

  lemma SameField(v: Value, w: Value, k: string)
    requires v.Record? && Same(v, w, {}) && k in v.fields
    ensures k in w.fields && Same(v.fields[k], w.fields[k], {})
  {
    assert v.fields.Keys - {} == v.fields.Keys && w.fields.Keys - {} == w.fields.Keys;
  }

  lemma SameKeys(v: Value, w: Value)
    requires v.Record? && Same(v, w, {})
    ensures v.fields.Keys == w.fields.Keys
  {
    assert v.fields.Keys - {} == v.fields.Keys && w.fields.Keys - {} == w.fields.Keys;
  }

  lemma SameFieldsOfClean(v: Given, w: Given)
    requires v.Record? && w.Record? && Same(Clean(v), Clean(w), {})
    ensures v.fields.Keys - {PROTO} == w.fields.Keys - {PROTO}
    ensures forall k | k in v.fields && k != PROTO && k in w.fields :: Same(Clean(Field(v, k)), Clean(Field(w, k)), {})
  {
    CleanKind(v);
    CleanKeys(v);
    CleanKeys(w);
    SameKeys(Clean(v), Clean(w));
    forall k | k in v.fields && k != PROTO && k in w.fields ensures Same(Clean(Field(v, k)), Clean(Field(w, k)), {}) {
      CleanField(v, k);
      CleanField(w, k);
      SameField(Clean(v), Clean(w), k);
    }
  }

  lemma {:induction false} SameTexts(v: Given, w: Given)
    requires Acceptable(v) && Acceptable(w) && Same(v, w, {PROTO})
    ensures CanonicalText(v) == CanonicalText(w)
    decreases v
  {
    CleanIsJson(v);
    CleanIsJson(w);
    match v
    case List(items) =>
      forall n: nat | n < Size(Clean(v)) ensures SameChildText(Clean(v), Clean(w), n) {
        SameTexts(Item(v, n), Item(w, n));
      }
      SameShowFrom(Clean(v), Clean(w), 0);
    case Record(_, fields, _) =>
      assert Clean(v).keys == Clean(w).keys;
      forall n: nat | n < Size(Clean(v)) ensures SameChildText(Clean(v), Clean(w), n) {
        var k := Clean(v).keys[n];
        assert k in Elems(Clean(v).keys);
        SameTexts(Field(v, k), Field(w, k));
      }
      SameShowFrom(Clean(v), Clean(w), 0);
    case _ =>
  }

  ghost predicate SameChildText(v: Json, w: Json, n: nat)
    requires IsObject(v) && IsObject(w) && n < Size(v) && n < Size(w)
  {
    Head(v, n) == Head(w, n) && Show(Child(v, n)) == Show(Child(w, n))
  }

  lemma {:induction false} SameShowFrom(v: Json, w: Json, n: nat)
    requires IsObject(v) && IsObject(w) && Size(v) == Size(w) && n <= Size(v)
    requires forall m: nat | m < Size(v) :: SameChildText(v, w, m)
    ensures ShowFrom(v, n) == ShowFrom(w, n)
    decreases Size(v) - n
  {
    if n < Size(v) {
      assert SameChildText(v, w, n);
      SameShowFrom(v, w, n + 1);
    }
  }

  /** Two values have one canonical text exactly when they are the same up to the order of keys and prototype fields. */
  lemma TextIffSame(v: Given, w: Given)
    requires Acceptable(v) && Acceptable(w)
    ensures CanonicalText(v) == CanonicalText(w) <==> Same(v, w, {PROTO})
  {
    if CanonicalText(v) == CanonicalText(w) {
      CleanIsJson(v);
      CleanIsJson(w);
      ShowPrefix(Clean(v), Clean(w), "", "");
      SameOfClean(v, w);
    }
    if Same(v, w, {PROTO}) { SameTexts(v, w); }
  }

  // ---- fields that set a prototype ----

  /** No record has a prototype field, at any depth. */
  ghost predicate NoProtoField(v: Given)
    decreases v
  {
    match v
    case List(items) => forall i | 0 <= i < |items| :: NoProtoField(Item(v, i))
    case Record(_, fields, _) => PROTO !in fields && forall k | k in fields :: NoProtoField(Field(v, k))
    case _ => true
  }

  lemma {:induction false} SameEverywhere(v: Given, w: Given)
    requires NoProtoField(v) && NoProtoField(w) && Same(v, w, {PROTO})
    ensures Same(v, w, {})
    decreases v
  {
    match v
    case List(items) => forall i | 0 <= i < |items| ensures Same(items[i], w.items[i], {}) { SameEverywhere(Item(v, i), Item(w, i)); }
    case Record(_, fields, _) =>
      assert fields.Keys - {PROTO} == fields.Keys && w.fields.Keys - {PROTO} == w.fields.Keys;
      assert fields.Keys - {} == fields.Keys && w.fields.Keys - {} == w.fields.Keys;
      forall k | k in fields && k in w.fields ensures Same(fields[k], w.fields[k], {}) { SameEverywhere(Field(v, k), Field(w, k)); }
    case _ =>
  }

  lemma {:induction false} SameThenSkipping(v: Given, w: Given)
    requires Same(v, w, {})
    ensures Same(v, w, {PROTO})
    decreases v
  {
    match v
    case List(items) => forall i | 0 <= i < |items| ensures Same(items[i], w.items[i], {PROTO}) { SameThenSkipping(Item(v, i), Item(w, i)); }
    case Record(_, fields, _) =>
      SameKeys(v, w);
      forall k | k in fields && k != PROTO && k in w.fields ensures Same(fields[k], w.fields[k], {PROTO}) {
        SameField(v, w, k);
        SameThenSkipping(Field(v, k), Field(w, k));
      }
    case _ =>
  }

  /** The value without its prototype fields. */
  ghost function Stripped(v: Given): (c: Given)
    decreases v
  {
    match v
    case List(items) => Value.List(seq(|items|, i requires 0 <= i < |items| => Stripped(Item(v, i))))
    case Record(_, fields, plain) =>
      Value.Record(Arranged(fields.Keys - {PROTO}), map k | k in fields && k != PROTO :: Stripped(Field(v, k)), plain)
    case _ => v
  }

  lemma {:induction false} StrippedIsSame(v: Given)
    requires Acceptable(v)
    ensures Acceptable(Stripped(v)) && NoProtoField(Stripped(v)) && Same(v, Stripped(v), {PROTO})
    decreases v
  {
    match v
    case List(items) => forall i | 0 <= i < |items| { StrippedIsSame(Item(v, i)); }
    case Record(_, fields, _) =>
      assert Stripped(v).fields.Keys == fields.Keys - {PROTO};
      forall k | k in fields && k != PROTO { StrippedIsSame(Field(v, k)); }
    case _ =>
  }

  lemma {:induction false} SameKeepsProtoFields(v: Given, w: Given)
    requires Same(v, w, {}) && NoProtoField(w)
    ensures NoProtoField(v)
    decreases v
  {
    match v
    case List(items) =>
      forall i | 0 <= i < |items| ensures NoProtoField(Item(v, i)) { SameKeepsProtoFields(Item(v, i), Item(w, i)); }
    case Record(_, fields, _) =>
      SameKeys(v, w);
      forall k | k in fields ensures NoProtoField(Field(v, k)) {
        SameField(v, w, k);
        SameKeepsProtoFields(Field(v, k), Field(w, k));
      }
    case _ =>
  }

  /** Nothing is lost without prototype fields: one text means one value up to the order of keys. */
  lemma TextIsFaithful(v: Given, w: Given)
    requires Acceptable(v) && Acceptable(w) && NoProtoField(v) && NoProtoField(w)
    ensures CanonicalText(v) == CanonicalText(w) <==> Same(v, w, {})
  {
    TextIffSame(v, w);
    if Same(v, w, {PROTO}) { SameEverywhere(v, w); }
    if Same(v, w, {}) { SameThenSkipping(v, w); }
  }

  /** A prototype field is lost: another value, without any, has the same text. */
  lemma ProtoFieldIsLost(v: Given) returns (w: Given)
    requires Acceptable(v) && !NoProtoField(v)
    ensures Acceptable(w) && NoProtoField(w) && CanonicalText(v) == CanonicalText(w) && !Same(v, w, {})
  {
    StrippedIsSame(v);
    w := Stripped(v);
    TextIffSame(v, w);
    if Same(v, w, {}) { SameKeepsProtoFields(v, w); }
  }

  /** No prototype field holds a list or a record, outside of prototype fields. */
  ghost predicate NoProtoObject(v: Given)
    decreases v
  {
    match v
    case List(items) => forall i | 0 <= i < |items| :: NoProtoObject(Item(v, i))
    case Record(_, fields, _) =>
      (PROTO in fields ==> !IsObject(fields[PROTO])) && forall k | k in fields && k != PROTO :: NoProtoObject(Field(v, k))
    case _ => true
  }

  /** A canonical form can be canonicalised again exactly without prototype fields that hold objects; then it stays as it is. */
  lemma {:induction false} CanonicalTwice(v: Given)
    requires Acceptable(v)
    ensures Acceptable(Clean(v)) <==> NoProtoObject(v)
    ensures NoProtoObject(v) ==> Clean(Clean(v)) == Clean(v)
    decreases v
  {
    CleanIsJson(v);
    CleanKind(v);
    var c := Clean(v);
    if v.List? {
      forall i | 0 <= i < |v.items|
        ensures Item(c, i) == Clean(Item(v, i)) && (Acceptable(Item(c, i)) <==> NoProtoObject(Item(v, i)))
        ensures NoProtoObject(Item(v, i)) ==> Clean(Item(c, i)) == Item(c, i)
      {
        CanonicalTwice(Item(v, i));
      }
      if NoProtoObject(v) { CleanItemsStay(c); }
    } else if v.Record? {
      CleanKeys(v);
      forall k | k in v.fields && k != PROTO
        ensures k in c.fields && Field(c, k) == Clean(Field(v, k)) && (Acceptable(Field(c, k)) <==> NoProtoObject(Field(v, k)))
        ensures NoProtoObject(Field(v, k)) ==> Clean(Field(c, k)) == Field(c, k)
      {
        CleanField(v, k);
        CanonicalTwice(Field(v, k));
      }
      if NoProtoObject(v) { CleanFieldsStay(c, v.fields.Keys); }
    }
  }

  lemma CleanItemsStay(c: Given)
    requires c.List? && forall i | 0 <= i < |c.items| :: Clean(Item(c, i)) == Item(c, i)
    ensures Clean(c) == c
  {
    assert Clean(c).items == c.items;
  }

  lemma CleanFieldsStay(c: Given, keys: set<string>)
    requires c.Record? && c.plain && c.fields.Keys == keys - {PROTO} && c.keys == Arranged(c.fields.Keys)
    requires forall k | k in c.fields :: Clean(Field(c, k)) == Field(c, k)
    ensures Clean(c) == c
  {
    assert c.fields.Keys - {PROTO} == c.fields.Keys;
    assert Clean(c).fields == c.fields;
  }

  // ---- hashes of texts ----

  function TextList(xs: seq<string>): Given {
    var v := Value.List(seq(|xs|, i requires 0 <= i < |xs| => Text(xs[i])));
    assert Proper(v) by { assert forall i | 0 <= i < |v.items| :: v.items[i].Text? && Proper(v.items[i]); }
    v
  }

  lemma TextListIsCanonical(xs: seq<string>)
    ensures Printable(TextList(xs)) && Acceptable(TextList(xs)) && Clean(TextList(xs)) == TextList(xs)
  {
    var v := TextList(xs);
    CleanItemsStay(v);
  }

  /** What JSON.stringify writes for a list of strings. */
  ghost function ListText(xs: seq<string>): string {
    TextListIsCanonical(xs);
    Show(TextList(xs))
  }

  lemma ListTextInjective(xs: seq<string>, ys: seq<string>)
    requires ListText(xs) == ListText(ys)
    ensures xs == ys
  {
    TextListIsCanonical(xs);
    TextListIsCanonical(ys);
    ShowPrefix(TextList(xs), TextList(ys), "", "");
    forall i | 0 <= i < |xs| ensures xs[i] == ys[i] { assert Same(TextList(xs).items[i], TextList(ys).items[i], {}); }
  }

  /** What a group of a dataset is hashed from. */
  ghost function GroupText(seed: string, keys: seq<string>): string { ListText([seed, ListText(keys)]) }

  lemma GroupTextInjective(seed: string, k: seq<string>, l: seq<string>)
    requires GroupText(seed, k) == GroupText(seed, l)
    ensures k == l
  {
    ListTextInjective([seed, ListText(k)], [seed, ListText(l)]);
    assert [seed, ListText(k)][1] == [seed, ListText(l)][1];
    ListTextInjective(k, l);
  }

  /** A digest that tells the texts of these rows' groups apart tells the groups apart. */
  lemma GroupHashTellsApart(sha: string -> DatasetSplit.Digest, hash: DatasetSplit.Hasher, rows: seq<Components.Row>, seed: string)
    requires forall k :: hash(seed, k) == sha(GroupText(seed, k))
    requires forall i, j | 0 <= i < |rows| && 0 <= j < |rows| ::
      var x, y := GroupText(seed, Components.ComponentKey(rows, i)), GroupText(seed, Components.ComponentKey(rows, j));
      x != y ==> sha(x) != sha(y)
    ensures DatasetSplitTheorems.TellsApart(rows, seed, hash)
  {
    forall i, j | 0 <= i < |rows| && 0 <= j < |rows| && Components.ComponentKey(rows, i) != Components.ComponentKey(rows, j)
      ensures hash(seed, Components.ComponentKey(rows, i)) != hash(seed, Components.ComponentKey(rows, j))
    {
      var k, l := Components.ComponentKey(rows, i), Components.ComponentKey(rows, j);
      if GroupText(seed, k) == GroupText(seed, l) { GroupTextInjective(seed, k, l); }
    }
  }

  /** What the sources of a chunk revision are hashed from. */
  ghost function SourceText(sourceRevisionIds: seq<string>): string {
    var ids := Sort(DatasetSplit.Dedup(sourceRevisionIds));
    TextListIsCanonical(ids);
    CanonicalText(TextList(ids))
  }

  /** The sources of two chunk revisions have one text exactly when they are the same, in any order and number. */
  lemma TextMeansSources(xs: seq<string>, ys: seq<string>)
    ensures SourceText(xs) == SourceText(ys) <==> Elems(xs) == Elems(ys)
  {
    var a, b := Sort(DatasetSplit.Dedup(xs)), Sort(DatasetSplit.Dedup(ys));
    assert Elems(a) == Elems(xs) && Elems(b) == Elems(ys);
    TextListIsCanonical(a);
    TextListIsCanonical(b);
    if SourceText(xs) == SourceText(ys) { ListTextInjective(a, b); }
    if Elems(xs) == Elems(ys) {
      SortIsListing(DatasetSplit.Dedup(xs));
      SortIsListing(DatasetSplit.Dedup(ys));
    }
  }

  /** Chunk revisions have one fingerprint exactly when they have the same sources, if the digest tells their texts apart. */
  lemma FingerprintMeansSources(sha: string -> string, xs: seq<string>, ys: seq<string>)
    requires SourceText(xs) != SourceText(ys) ==> sha(SourceText(xs)) != sha(SourceText(ys))
    ensures sha(SourceText(xs)) == sha(SourceText(ys)) <==> Elems(xs) == Elems(ys)
  {
    TextMeansSources(xs, ys);
  }
}
