/** When two bodies have the same canonical text. */
module JsonEquality {
  import opened Sorting
  import opened JsonText
  import opened CanonicalJson
  import opened JsonRoundTrip

  predicate SameKey(a: Field, b: Field) {
    a.key == b.key
  }

  /** No object repeats a key. */
  ghost predicate Keyed(v: Json) {
    match v
    case Array(items) => forall i | 0 <= i < |items| :: Keyed(items[i])
    case Object(fields) => Apart(SameKey, fields) && forall i | 0 <= i < |fields| :: Keyed(fields[i].value)
    case _ => true
  }

  ghost predicate HasKey(fields: seq<Field>, key: Text) {
    exists f :: f in fields && !f.value.Undefined? && f.key == key
  }

  /** The same value: the order of an object's fields does not matter, nor do fields that are undefined. */
  ghost predicate Same(v: Json, w: Json) {
    match v
    case Array(items) =>
      w.Array? && |items| == |w.items| && forall i | 0 <= i < |items| :: Same(items[i], w.items[i])
    case Object(fields) =>
      w.Object? && (forall key :: HasKey(fields, key) <==> HasKey(w.fields, key)) &&
      forall i, j | 0 <= i < |fields| && 0 <= j < |w.fields| && Matching(fields[i], w.fields[j]) ::
        Same(fields[i].value, w.fields[j].value)
    case _ => v == w
  }

  predicate Matching(f: Field, g: Field) {
    f.key == g.key && !f.value.Undefined? && !g.value.Undefined?
  }

  /** Distinct keys never tie. */
  ghost predicate Total(order: KeyOrder) {
    forall a, b :: a != b ==> order(a, b) || order(b, a)
  }

  // ----- Entries -----

  lemma {:induction false} DefinedApart(fields: seq<Field>)
    requires Apart(SameKey, fields)
    ensures Apart(SameKey, Defined(fields))
  {
    if fields != [] {
      DefinedApart(fields[1..]);
      forall f | f in Defined(fields[1..]) ensures !SameKey(fields[0], f) {
        assert f in fields[1..];
      }
    }
  }

  lemma {:induction false} EntriesApart(order: KeyOrder, fields: seq<Field>)
    requires Apart(SameKey, fields)
    ensures Apart(SameKey, Entries(order, fields))
  {
    DefinedApart(fields);
    SortPermutes(ByKey(order), Defined(fields));
    PermutationApart(SameKey, Defined(fields), Entries(order, fields));
  }

  /** No printed field comes before one whose key is smaller. */
  lemma {:induction false} EntriesSorted(order: KeyOrder, fields: seq<Field>)
    requires StrictWeak(order)
    ensures SortedBy(ByKey(order), Entries(order, fields))
    ensures
      var entries := Entries(order, fields);
      forall i, j | 0 <= i < j < |entries| :: !order(entries[j].key, entries[i].key)
  {
    assert StrictWeak(ByKey(order)) by {
      forall x: Field, y: Field ensures ByKey(order)(x, y) == order(x.key, y.key) {
      }
    }
    SortSorts(ByKey(order), Defined(fields));
  }

  // ----- Same text, same value -----

  lemma {:induction false} SameNormalSameValue(order: KeyOrder, v: Json, w: Json)
    requires Serializable(v) && Serializable(w) && Keyed(v) && Keyed(w)
    requires Normal(order, v) == Normal(order, w)
    ensures Same(v, w)
    decreases v
  {
    match v
    case Array(items) =>
      forall i | 0 <= i < |items| ensures Same(items[i], w.items[i]) {
        assert Normal(order, v).items[i] == Normal(order, w).items[i];
        SameNormalSameValue(order, items[i], w.items[i]);
      }
    case Object(fields) =>
      SameNormalSameKeys(order, v, w);
      forall i, j | 0 <= i < |fields| && 0 <= j < |w.fields| && Matching(fields[i], w.fields[j])
        ensures Same(fields[i].value, w.fields[j].value)
      {
        SameNormalMatching(order, v, w, i, j);
        SameNormalSameValue(order, fields[i].value, w.fields[j].value);
      }
    case _ =>
  }

  lemma {:induction false} SameNormalSameKeys(order: KeyOrder, v: Json, w: Json)
    requires v.Object? && w.Object? && Serializable(v) && Serializable(w) && Normal(order, v) == Normal(order, w)
    ensures forall key :: HasKey(v.fields, key) <==> HasKey(w.fields, key)
  {
    forall key ensures HasKey(v.fields, key) <==> HasKey(w.fields, key) {
      if f :| f in v.fields && !f.value.Undefined? && f.key == key {
        var g := NormalPartner(order, v, w, f);
      }
      if g :| g in w.fields && !g.value.Undefined? && g.key == key {
        var f := NormalPartner(order, w, v, g);
      }
    }
  }

  lemma {:induction false} SameNormalMatching(order: KeyOrder, v: Json, w: Json, i: nat, j: nat)
    requires v.Object? && w.Object? && Serializable(v) && Serializable(w) && Normal(order, v) == Normal(order, w)
    requires Apart(SameKey, w.fields)
    requires i < |v.fields| && j < |w.fields| && Matching(v.fields[i], w.fields[j])
    ensures Normal(order, v.fields[i].value) == Normal(order, w.fields[j].value)
  {
    var g := NormalPartner(order, v, w, v.fields[i]);
    var k :| 0 <= k < |w.fields| && w.fields[k] == g;
    assert SameKey(w.fields[k], w.fields[j]) && SameKey(w.fields[j], w.fields[k]);
    assert k == j;
  }

  lemma {:induction false} NormalPartner(order: KeyOrder, v: Json, w: Json, f: Field) returns (g: Field)
    requires v.Object? && w.Object? && Serializable(v) && Serializable(w) && Normal(order, v) == Normal(order, w)
    requires f in v.fields && !f.value.Undefined?
    ensures g in w.fields && !g.value.Undefined? && g.key == f.key
    ensures Serializable(f.value) && Serializable(g.value) && Normal(order, f.value) == Normal(order, g.value)
  {
    var a, b := Entries(order, v.fields), Entries(order, w.fields);
    assert f in a;
    var i :| 0 <= i < |a| && a[i] == f;
    g := b[i];
    assert g in b;
  }

  /** Two bodies with the same canonical text are the same value. */
  lemma {:induction false} SameTextSameValue(order: KeyOrder, v: Json, w: Json)
    requires Serializable(v) && Serializable(w) && Keyed(v) && Keyed(w)
    requires Print(order, v) == Print(order, w)
    ensures Same(v, w)
  {
    CanonicalTextRoundTrip(order, v);
    CanonicalTextRoundTrip(order, w);
    SameNormalSameValue(order, v, w);
  }

  // ----- Same value, same text -----

  ghost predicate KeyIn(s: seq<Field>, key: Text) {
    exists f :: f in s && f.key == key
  }

  ghost predicate KeysWithin(a: seq<Field>, b: seq<Field>) {
    forall f | f in a :: KeyIn(b, f.key)
  }

  /** In order and without repeats: the first key is before every other. */
  ghost predicate Strict(order: KeyOrder, s: seq<Field>) {
    forall i, j | 0 <= i < j < |s| :: s[i].key != s[j].key && !order(s[j].key, s[i].key)
  }

  /** Under a total order, distinct keys have only one order to be in. */
  lemma {:induction false} KeysInOrderUnique(order: KeyOrder, a: seq<Field>, b: seq<Field>)
    requires Total(order) && Strict(order, a) && Strict(order, b) && KeysWithin(a, b) && KeysWithin(b, a)
    ensures |a| == |b| && forall i | 0 <= i < |a| :: a[i].key == b[i].key
    decreases |a|
  {
    if b != [] {
      assert KeyIn(a, b[0].key) by { assert b[0] in b; }
    }
    if a != [] {
      assert KeyIn(b, a[0].key) by { assert a[0] in a; }
      KeysInOrderUnique(order, a[1..], b[1..]);
    }
  }

  lemma {:induction false} EntriesStrict(order: KeyOrder, fields: seq<Field>)
    requires StrictWeak(order) && Apart(SameKey, fields)
    ensures Strict(order, Entries(order, fields))
  {
    EntriesApart(order, fields);
    EntriesSorted(order, fields);
    var s := Entries(order, fields);
    forall i, j | 0 <= i < j < |s| ensures s[i].key != s[j].key && !order(s[j].key, s[i].key) {
      assert !SameKey(s[i], s[j]) && !ByKey(order)(s[j], s[i]);
    }
  }

  lemma {:induction false} EntryKeysWithin(order: KeyOrder, fields: seq<Field>, others: seq<Field>)
    requires forall key :: HasKey(fields, key) ==> HasKey(others, key)
    ensures KeysWithin(Entries(order, fields), Entries(order, others))
  {
    var a, b := Entries(order, fields), Entries(order, others);
    forall f | f in a ensures KeyIn(b, f.key) {
      assert HasKey(fields, f.key);
      var g :| g in others && !g.value.Undefined? && g.key == f.key;
      assert g in b;
    }
  }

  lemma {:induction false} SameKeysInOrder(order: KeyOrder, v: Json, w: Json)
    requires StrictWeak(order) && Total(order)
    requires v.Object? && w.Object? && Same(v, w) && Keyed(v) && Keyed(w)
    ensures
      var a, b := Entries(order, v.fields), Entries(order, w.fields);
      |a| == |b| && forall i | 0 <= i < |a| :: a[i].key == b[i].key
  {
    EntriesStrict(order, v.fields);
    EntriesStrict(order, w.fields);
    EntryKeysWithin(order, v.fields, w.fields);
    EntryKeysWithin(order, w.fields, v.fields);
    KeysInOrderUnique(order, Entries(order, v.fields), Entries(order, w.fields));
  }

  lemma {:induction false} ItemsPrintAlike(order: KeyOrder, a: seq<Json>, b: seq<Json>, c: nat, d: nat)
    requires ItemsBelow(a, c) && ItemsBelow(b, d) && |a| == |b|
    requires forall i | 0 <= i < |a| :: Print(order, a[i]) == Print(order, b[i])
    ensures PrintItems(order, a, c) == PrintItems(order, b, d)
    decreases |a|
  {
    if |a| > 1 {
      ItemsPrintAlike(order, a[1..], b[1..], c, d);
    }
  }

  lemma {:induction false} FieldsPrintAlike(order: KeyOrder, a: seq<Field>, b: seq<Field>, c: nat, d: nat)
    requires FieldsBelow(a, c) && FieldsBelow(b, d) && |a| == |b|
    requires forall i | 0 <= i < |a| :: a[i].key == b[i].key && Print(order, a[i].value) == Print(order, b[i].value)
    ensures PrintFields(order, a, c) == PrintFields(order, b, d)
    decreases |a|
  {
    if |a| > 1 {
      FieldsPrintAlike(order, a[1..], b[1..], c, d);
    }
  }

  /** Under a total order on keys, the same value has the same canonical text. */
  lemma {:induction false} SameValueSameText(order: KeyOrder, v: Json, w: Json)
    requires StrictWeak(order) && Total(order)
    requires Serializable(v) && Serializable(w) && Keyed(v) && Keyed(w) && Same(v, w)
    ensures Print(order, v) == Print(order, w)
    decreases v
  {
    match v
    case Array(items) =>
      forall i | 0 <= i < |items| ensures Print(order, items[i]) == Print(order, w.items[i]) {
        SameValueSameText(order, items[i], w.items[i]);
      }
      ItemsPrintAlike(order, items, w.items, DepthOfItems(items), DepthOfItems(w.items));
    case Object(fields) =>
      var a, b := Entries(order, fields), Entries(order, w.fields);
      SameKeysInOrder(order, v, w);
      forall i | 0 <= i < |a|
        ensures a[i].key == b[i].key && Print(order, a[i].value) == Print(order, b[i].value)
      {
        var k, l := MatchingEntries(order, v, w, i);
        SameValueSameText(order, fields[k].value, w.fields[l].value);
      }
      FieldsPrintAlike(order, a, b, DepthOfFields(fields), DepthOfFields(w.fields));
    case _ =>
  }

  lemma {:induction false} MatchingEntries(order: KeyOrder, v: Json, w: Json, i: nat) returns (k: nat, l: nat)
    requires v.Object? && w.Object? && Same(v, w)
    requires i < |Entries(order, v.fields)| && i < |Entries(order, w.fields)|
    requires Entries(order, v.fields)[i].key == Entries(order, w.fields)[i].key
    ensures k < |v.fields| && v.fields[k] == Entries(order, v.fields)[i] && !v.fields[k].value.Undefined?
    ensures l < |w.fields| && w.fields[l] == Entries(order, w.fields)[i] && !w.fields[l].value.Undefined?
    ensures Same(v.fields[k].value, w.fields[l].value)
  {
    var f, g := Entries(order, v.fields)[i], Entries(order, w.fields)[i];
    assert f in Entries(order, v.fields) && g in Entries(order, w.fields);
    k :| k < |v.fields| && v.fields[k] == f;
    l :| l < |w.fields| && w.fields[l] == g;
    assert Matching(v.fields[k], w.fields[l]);
  }

  // ----- Exactly the total orders make the text canonical -----

  ghost predicate Comparable(v: Json) {
    Serializable(v) && Keyed(v)
  }

  ghost predicate SameTextExactly(order: KeyOrder, v: Json, w: Json)
    requires Serializable(v) && Serializable(w)
  {
    Print(order, v) == Print(order, w) <==> Same(v, w)
  }

  ghost predicate CanonicalUnder(order: KeyOrder) {
    forall v, w :: Comparable(v) && Comparable(w) ==> SameTextExactly(order, v, w)
  }

  /** Two tied keys keep the order they were given in. */
  lemma {:induction false} TiedKeysKeepOrder(order: KeyOrder, a: Text, b: Text)
    requires !order(a, b) && !order(b, a)
    ensures Entries(order, [Field(a, Null), Field(b, Null)]) == [Field(a, Null), Field(b, Null)]
  {
    var fa, fb := Field(a, Null), Field(b, Null);
    var fields := [fa, fb];
    assert fields[1..] == [fb] && [fb][1..] == [];
    assert Defined([fb]) == [fb];
    assert Defined(fields) == fields;
    assert Sort(ByKey(order), [fb]) == [fb];
  }

  function Pair(a: Text, b: Text): Json {
    Object([Field(a, Null), Field(b, Null)])
  }

  lemma {:induction false} SwappedPairSame(a: Text, b: Text)
    requires a != b
    ensures Comparable(Pair(a, b)) && Same(Pair(a, b), Pair(b, a))
  {
    var v, w := Pair(a, b), Pair(b, a);
    forall key ensures HasKey(v.fields, key) <==> HasKey(w.fields, key) {
      assert forall f :: f in v.fields <==> f in w.fields;
    }
  }

  lemma {:induction false} TiedPairText(order: KeyOrder, a: Text, b: Text)
    requires !order(a, b) && !order(b, a)
    ensures Normal(order, Pair(a, b)).Object? && |Normal(order, Pair(a, b)).fields| == 2
    ensures Normal(order, Pair(a, b)).fields[0].key == a
  {
    TiedKeysKeepOrder(order, a, b);
  }

  lemma {:induction false} TiedKeysPrintApart(order: KeyOrder, a: Text, b: Text)
    requires !order(a, b) && !order(b, a) && a != b
    ensures Print(order, Pair(a, b)) != Print(order, Pair(b, a))
  {
    TiedPairText(order, a, b);
    TiedPairText(order, b, a);
    CanonicalTextRoundTrip(order, Pair(a, b));
    CanonicalTextRoundTrip(order, Pair(b, a));
  }

  /**
   * The text is the same exactly for the same values if and only if the comparison of keys never ties two
   * different ones, as a locale's comparison may.
   */
  lemma {:induction false} CanonicalExactlyUnderTotalOrders(order: KeyOrder)
    requires StrictWeak(order)
    ensures CanonicalUnder(order) <==> Total(order)
  {
    if Total(order) {
      forall v, w | Comparable(v) && Comparable(w) ensures SameTextExactly(order, v, w) {
        if Print(order, v) == Print(order, w) {
          SameTextSameValue(order, v, w);
        }
        if Same(v, w) {
          SameValueSameText(order, v, w);
        }
      }
    } else {
      var a, b :| a != b && !order(a, b) && !order(b, a);
      SwappedPairSame(a, b);
      SwappedPairSame(b, a);
      TiedKeysPrintApart(order, a, b);
      assert !SameTextExactly(order, Pair(a, b), Pair(b, a));
    }
  }
}
