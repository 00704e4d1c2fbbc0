/** Values of the owner's files turned into values of the shipped kind, and back. */
module LeakedValues {
  import opened Prelude
  import opened Order
  import opened Values

  /** A JSON value as a shipped one, its tables in key order; none when it holds a null or a number that is no 64-bit integer. */
  function LeakValue(j: Json): Option<V>
    decreases j, 1
  {
    match j
    case JNull => None
    case JBool(b) => Some(Bool(b))
    case JNum(_) => (match AsInt(j) case None => None case Some(n) => Some(Int(n)))
    case JStr(s) => Some(Str(s))
    case JArr(items) => (match LeakItems(items) case None => None case Some(vs) => Some(List(vs)))
    case JObj(fields) => (match LeakFields(j, SortKeys(fields.Keys)) case None => None case Some(ps) => Some(Table(ps)))
  }

  function LeakItems(items: seq<Json>): Option<seq<V>>
    decreases items
  {
    if items == [] then Some([])
    else match (LeakValue(items[0]), LeakItems(items[1..]))
      case (Some(v), Some(vs)) => Some([v] + vs)
      case _ => None
  }

  function LeakFields(j: Json, keys: seq<string>): Option<seq<(string, V)>>
    requires j.JObj? && forall k :: k in keys ==> k in j.fields
    decreases j, 0, keys
  {
    if keys == [] then Some([])
    else match (LeakValue(j.fields[keys[0]]), LeakFields(j, keys[1..]))
      case (Some(v), Some(ps)) => Some([(keys[0], v)] + ps)
      case _ => None
  }

  /** A value the shipped kind can hold: no null and no number beyond the 64-bit integers, at any depth. */
  predicate Holdable(j: Json) {
    match j
    case JNull => false
    case JNum(_) => AsInt(j).Some?
    case JArr(items) => forall i :: 0 <= i < |items| ==> Holdable(items[i])
    case JObj(fields) => forall k :: k in fields ==> Holdable(fields[k])
    case _ => true
  }

  /** Tables in strict key order at every depth. */
  predicate Canonical(v: V) {
    match v
    case List(items) => forall i :: 0 <= i < |items| ==> Canonical(items[i])
    case Table(pairs) =>
      && (forall i, j :: 0 <= i < j < |pairs| ==> Less(pairs[i].0, pairs[j].0))
      && forall i :: 0 <= i < |pairs| ==> Canonical(pairs[i].1)
    case _ => true
  }

  /** Just the holdable values are converted, to a canonical value that reads back as what was given. */
  lemma {:induction false} LeakReadsBack(j: Json)
    ensures LeakValue(j).Some? <==> Holdable(j)
    ensures LeakValue(j).Some? ==> Canonical(LeakValue(j).value) && ToJson(LeakValue(j).value) == j
    decreases j, 1
  {
    match j
    case JArr(_) => LeakArrayReadsBack(j);
    case JObj(_) => LeakTableReadsBack(j);
    case _ =>
  }

  lemma {:induction false} LeakArrayReadsBack(j: Json)
    requires j.JArr?
    ensures LeakValue(j).Some? <==> Holdable(j)
    ensures LeakValue(j).Some? ==> Canonical(LeakValue(j).value) && ToJson(LeakValue(j).value) == j
    decreases j, 0
  {
    hide Fields, LeakItems;
    LeakItemsReadBack(j.items);
  }

  lemma {:induction false} LeakTableReadsBack(j: Json)
    requires j.JObj?
    ensures LeakValue(j).Some? <==> Holdable(j)
    ensures LeakValue(j).Some? ==> Canonical(LeakValue(j).value) && ToJson(LeakValue(j).value) == j
    decreases j, 0
  {
    hide Fields, Less, SortKeys, LeakFields, Canonical;
    var keys := SortKeys(j.fields.Keys);
    LeakFieldsReadBack(j, keys);
    if LeakFields(j, keys).Some? {
      var ps := LeakFields(j, keys).value;
      assert Fields(ps) == j.fields;
      forall a, b | 0 <= a < b < |ps| ensures Less(ps[a].0, ps[b].0) {
        assert Less(keys[a], keys[b]);
      }
      TableIsCanonical(ps);
    }
  }

  lemma TableIsCanonical(ps: seq<(string, V)>)
    requires forall i, j :: 0 <= i < j < |ps| ==> Less(ps[i].0, ps[j].0)
    requires forall i :: 0 <= i < |ps| ==> Canonical(ps[i].1)
    ensures Canonical(Table(ps))
  {
  }

  lemma {:induction false} LeakItemsReadBack(items: seq<Json>)
    ensures LeakItems(items).Some? <==> forall i :: 0 <= i < |items| ==> Holdable(items[i])
    ensures LeakItems(items).Some? ==> var vs := LeakItems(items).value;
      ToJsons(vs) == items && forall i :: 0 <= i < |vs| ==> Canonical(vs[i])
    decreases items
  {
    if items != [] {
      LeakReadsBack(items[0]);
      LeakItemsReadBack(items[1..]);
    }
  }

  lemma {:induction false} LeakFieldsReadBack(j: Json, keys: seq<string>)
    requires j.JObj? && (forall k :: k in keys ==> k in j.fields) && Ascending(keys)
    ensures LeakFields(j, keys).Some? <==> forall k :: k in keys ==> Holdable(j.fields[k])
    ensures LeakFields(j, keys).Some? ==> var ps := LeakFields(j, keys).value;
      && |ps| == |keys|
      && (forall i :: 0 <= i < |ps| ==> ps[i].0 == keys[i] && Canonical(ps[i].1))
      && Fields(ps).Keys == (set k | k in keys)
      && forall k :: k in keys ==> Fields(ps)[k] == j.fields[k]
    decreases j, 0, keys
  {
    if keys != [] {
      LeakReadsBack(j.fields[keys[0]]);
      LeakFieldsReadBack(j, keys[1..]);
    }
  }

  // ---- canonical values

  function NamesOf(pairs: seq<(string, V)>): (r: seq<string>)
    ensures |r| == |pairs| && forall i :: 0 <= i < |r| ==> r[i] == pairs[i].0
  {
    seq(|pairs|, i requires 0 <= i < |pairs| => pairs[i].0)
  }

  lemma FieldsOfPairs(pairs: seq<(string, V)>)
    requires forall i, j :: 0 <= i < j < |pairs| ==> Less(pairs[i].0, pairs[j].0)
    ensures forall i :: 0 <= i < |pairs| ==> pairs[i].0 in Fields(pairs) && Fields(pairs)[pairs[i].0] == ToJson(pairs[i].1)
    ensures forall k :: k in Fields(pairs) <==> k in NamesOf(pairs)
  {
    hide Fields, Field, Less;
    forall a, b | 0 <= a < b < |pairs| ensures pairs[a].0 != pairs[b].0 {
      LessIrreflexive(pairs[a].0);
    }
    forall i | 0 <= i < |pairs| ensures pairs[i].0 in Fields(pairs) && Fields(pairs)[pairs[i].0] == ToJson(pairs[i].1) {
      FieldOf(pairs, i);
      FieldsAt(pairs, pairs[i].0);
    }
    forall k | k in Fields(pairs) ensures k in NamesOf(pairs) {
      var p := (k, Field(pairs, k).value);
      var i :| 0 <= i < |pairs| && pairs[i] == p;
      assert NamesOf(pairs)[i] == k;
    }
  }

  /** A canonical value is what its own JSON is converted to. */
  lemma {:induction false} CanonicalReturns(v: V)
    requires Canonical(v)
    ensures LeakValue(ToJson(v)) == Some(v)
    decreases v, 1
  {
    match v
    case List(items) => CanonicalItemsReturn(items);
    case Table(pairs) => CanonicalTableReturns(v);
    case _ =>
  }

  lemma {:induction false} CanonicalItemsReturn(items: seq<V>)
    requires forall i :: 0 <= i < |items| ==> Canonical(items[i])
    ensures LeakItems(ToJsons(items)) == Some(items)
    decreases items
  {
    if items != [] {
      CanonicalReturns(items[0]);
      CanonicalItemsReturn(items[1..]);
      assert ToJsons(items)[1..] == ToJsons(items[1..]) && items == [items[0]] + items[1..];
    }
  }

  lemma {:induction false} CanonicalTableReturns(v: V)
    requires v.Table? && Canonical(v)
    ensures LeakValue(ToJson(v)) == Some(v)
    decreases v, 0
  {
    hide Fields, LeakFields, Canonical;
    var j, names := ToJson(v), NamesOf(v.pairs);
    OrderedPairs(v);
    FieldsOfPairs(v.pairs);
    AscendingIsUnique(SortKeys(j.fields.Keys), names);
    CanonicalFieldsReturn(v.pairs, j, |v.pairs|);
    assert names[|v.pairs| - |v.pairs|..] == names && v.pairs[|v.pairs| - |v.pairs|..] == v.pairs;
  }

  lemma OrderedPairs(v: V)
    requires v.Table? && Canonical(v)
    ensures forall i, j :: 0 <= i < j < |v.pairs| ==> Less(v.pairs[i].0, v.pairs[j].0)
    ensures forall i :: 0 <= i < |v.pairs| ==> Canonical(v.pairs[i].1)
  {
  }

  lemma {:induction false} CanonicalFieldsReturn(pairs: seq<(string, V)>, j: Json, n: nat)
    requires j.JObj? && n <= |pairs| && forall i :: 0 <= i < |pairs| ==> Canonical(pairs[i].1)
    requires forall i :: 0 <= i < |pairs| ==> pairs[i].0 in j.fields && j.fields[pairs[i].0] == ToJson(pairs[i].1)
    ensures LeakFields(j, NamesOf(pairs)[|pairs| - n..]) == Some(pairs[|pairs| - n..])
    decreases pairs, n
  {
    if n > 0 {
      var i := |pairs| - n;
      assert pairs[i].1 < pairs[i] && pairs[i] in pairs;
      CanonicalReturns(pairs[i].1);
      CanonicalFieldsReturn(pairs, j, n - 1);
      assert NamesOf(pairs)[i..][1..] == NamesOf(pairs)[i + 1..];
      assert pairs[i..] == [pairs[i]] + pairs[i + 1..];
    }
  }

  /** Canonical values that read as the same JSON are the same value. */
  lemma CanonicalIsUnique(a: V, b: V)
    requires Canonical(a) && Canonical(b) && ToJson(a) == ToJson(b)
    ensures a == b
  {
    CanonicalReturns(a);
    CanonicalReturns(b);
  }

  /** Every value of a setting's shape can be held. */
  lemma {:induction false} ShapedIsHoldable(d: V, j: Json)
    requires Shape(d, j)
    ensures Holdable(j)
    decreases j
  {
    match d
    case List(items) =>
      forall i | 0 <= i < |j.items| ensures Holdable(j.items[i]) {
        if items != [] { ShapedIsHoldable(items[0], j.items[i]); }
      }
    case Table(pairs) =>
      forall k | k in j.fields ensures Holdable(j.fields[k]) {
        ShapedIsHoldable(Field(pairs, k).value, j.fields[k]);
      }
    case _ =>
  }
}
