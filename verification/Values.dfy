/** The values of settings, shipped and given: the shape check between the two, and the deep merge of one over the other. */
module Values {
  import opened Prelude

  /** A shipped value. */
  datatype V =
    | Int(n: I64)
    | Bool(b: bool)
    | Str(s: string)
    | List(items: seq<V>)
    | Table(pairs: seq<(string, V)>)

  /** A JSON number: a whole one, or the text of any other. */
  datatype Number = Whole(n: int) | Real(text: string)

  datatype Json =
    | JNull
    | JBool(b: bool)
    | JNum(num: Number)
    | JStr(s: string)
    | JArr(items: seq<Json>)
    | JObj(fields: map<string, Json>)

  function JInt(n: int): Json {
    JNum(Whole(n))
  }

  function AsInt(j: Json): (r: Option<I64>)
    ensures r.Some? ==> j == JInt(r.value)
  {
    if j.JNum? && j.num.Whole? && -TWO_63 <= j.num.n < TWO_63 then Some(j.num.n) else None
  }

  function Field(pairs: seq<(string, V)>, k: string): (r: Option<V>)
    ensures r.Some? ==> (k, r.value) in pairs
    ensures r.None? <==> forall p :: p in pairs ==> p.0 != k
  {
    if pairs == [] then None
    else if pairs[0].0 == k then
      assert pairs[0] == (k, pairs[0].1);
      Some(pairs[0].1)
    else
      assert forall p :: p in pairs <==> p == pairs[0] || p in pairs[1..];
      Field(pairs[1..], k)
  }

  function ToJson(v: V): Json {
    match v
    case Int(n) => JInt(n)
    case Bool(b) => JBool(b)
    case Str(s) => JStr(s)
    case List(items) => JArr(ToJsons(items))
    case Table(pairs) => JObj(Fields(pairs))
  }

  function ToJsons(items: seq<V>): (r: seq<Json>)
    ensures |r| == |items| && forall i :: 0 <= i < |r| ==> r[i] == ToJson(items[i])
  {
    if items == [] then [] else [ToJson(items[0])] + ToJsons(items[1..])
  }

  /** The first pair of a name is the one kept. */
  function Fields(pairs: seq<(string, V)>): (r: map<string, Json>)
    ensures forall k :: k in r <==> Field(pairs, k).Some?
  {
    if pairs == [] then map[] else
      assert pairs[0].1 < pairs[0];
      Fields(pairs[1..])[pairs[0].0 := ToJson(pairs[0].1)]
  }

  lemma {:induction false} FieldsAt(pairs: seq<(string, V)>, k: string)
    requires Field(pairs, k).Some?
    ensures Fields(pairs)[k] == ToJson(Field(pairs, k).value)
  {
    if pairs[0].0 != k {
      FieldsAt(pairs[1..], k);
    }
  }

  // ---- shape

  /** Does a file's value have the shape of a shipped one? Tables name only fields the shipped one has; lists are of one kind. */
  predicate Shape(d: V, u: Json)
    decreases u
  {
    match d
    case Int(_) => AsInt(u).Some?
    case Bool(_) => u.JBool?
    case Str(_) => u.JStr?
    case List(items) =>
      && u.JArr?
      && forall i :: 0 <= i < |u.items| ==> if items == [] then u.items[i].JStr? else Shape(items[0], u.items[i])
    case Table(pairs) =>
      && u.JObj?
      && forall k :: k in u.fields ==> Field(pairs, k).Some? && Shape(Field(pairs, k).value, u.fields[k])
  }

  /** May `b` stand where `a` is shipped? */
  ghost predicate Like(a: V, b: V)
    decreases b
  {
    match (a, b)
    case (Int(_), Int(_)) => true
    case (Bool(_), Bool(_)) => true
    case (Str(_), Str(_)) => true
    case (List(xs), List(ys)) => forall y :: y in ys ==> if xs == [] then y.Str? else Like(xs[0], y)
    case (Table(ps), Table(qs)) => forall q :: q in qs ==> Field(ps, q.0).Some? && LikeField(ps, q)
    case _ => false
  }

  ghost predicate LikeField(ps: seq<(string, V)>, q: (string, V))
    requires Field(ps, q.0).Some?
    decreases q
  {
    Like(Field(ps, q.0).value, q.1)
  }

  /** The names of every table within a value are distinct. */
  ghost predicate WellFormed(v: V) {
    match v
    case List(items) => forall x :: x in items ==> WellFormed(x)
    case Table(pairs) =>
      && (forall i, j :: 0 <= i < j < |pairs| ==> pairs[i].0 != pairs[j].0)
      && forall p :: p in pairs ==> WellFormed(p.1)
    case _ => true
  }

  lemma {:induction false} FieldOf(pairs: seq<(string, V)>, i: nat)
    requires i < |pairs| && forall a, b :: 0 <= a < b < |pairs| ==> pairs[a].0 != pairs[b].0
    ensures Field(pairs, pairs[i].0) == Some(pairs[i].1)
  {
    if i > 0 {
      FieldOf(pairs[1..], i - 1);
    }
  }

  /** A shipped value passes the shape check against another just when it is like it. */
  lemma {:induction false} ShapeIsLike(a: V, b: V)
    requires WellFormed(b)
    ensures Shape(a, ToJson(b)) <==> Like(a, b)
    decreases b
  {
    match (a, b)
    case (List(xs), List(ys)) =>
      var us := ToJsons(ys);
      forall i | 0 <= i < |ys|
        ensures (if xs == [] then us[i].JStr? else Shape(xs[0], us[i])) == (if xs == [] then ys[i].Str? else Like(xs[0], ys[i])) {
        assert ys[i] in ys;
        if xs != [] { ShapeIsLike(xs[0], ys[i]); }
      }
      assert (forall y :: y in ys ==> if xs == [] then y.Str? else Like(xs[0], y))
        <==> (forall i :: 0 <= i < |ys| ==> if xs == [] then ys[i].Str? else Like(xs[0], ys[i]));
    case (Table(ps), Table(qs)) => TableShapeIsLike(ps, qs);
    case _ =>
  }

  lemma {:induction false} FieldShapeIsLike(ps: seq<(string, V)>, qs: seq<(string, V)>, q: (string, V))
    requires WellFormed(Table(qs)) && q in qs
    ensures q.0 in Fields(qs)
    ensures Field(ps, q.0).Some? ==> (Shape(Field(ps, q.0).value, Fields(qs)[q.0]) <==> LikeField(ps, q))
    decreases q
  {
    hide Shape, Like, Fields, Field, ToJson;
    var i :| 0 <= i < |qs| && qs[i] == q;
    FieldOf(qs, i);
    FieldsAt(qs, q.0);
    if Field(ps, q.0).Some? { ShapeIsLike(Field(ps, q.0).value, q.1); }
  }

  lemma {:induction false} TableShapeIsLike(ps: seq<(string, V)>, qs: seq<(string, V)>)
    requires WellFormed(Table(qs))
    ensures Shape(Table(ps), JObj(Fields(qs))) <==> Like(Table(ps), Table(qs))
    decreases qs
  {
    hide Fields, Field, LikeField, WellFormed;
    var us := Fields(qs);
    forall q | q in qs
      ensures q.0 in us && (Field(ps, q.0).Some? ==> (Shape(Field(ps, q.0).value, us[q.0]) <==> LikeField(ps, q))) {
      FieldShapeIsLike(ps, qs, q);
    }
    forall k | k in us ensures (k, Field(qs, k).value) in qs {
    }
  }

  /** A shipped value has its own shape just when its lists are of one kind. */
  lemma HasItsOwnShape(d: V)
    requires WellFormed(d)
    ensures Shape(d, ToJson(d)) <==> Like(d, d)
  {
    ShapeIsLike(d, d);
  }

  // ---- merge

  /** A user's value over a default: tables field by field, anything else the user's. */
  function Merge(d: Json, u: Json): Json
    decreases u
  {
    if d.JObj? && u.JObj? then
      JObj(map k | k in d.fields.Keys + u.fields.Keys ::
        if k in u.fields then Merge(if k in d.fields then d.fields[k] else JNull, u.fields[k]) else d.fields[k])
    else u
  }

  method RunMerge(d: Json, u: Json) returns (r: Json)
    ensures r == Merge(d, u)
    decreases u
  {
    if !d.JObj? || !u.JObj? {
      return u;
    }
    var fields, rest := d.fields, u.fields.Keys;
    while rest != {}
      invariant rest <= u.fields.Keys
      invariant fields.Keys == d.fields.Keys + (u.fields.Keys - rest)
      invariant forall k :: k in fields ==> fields[k] == if k in u.fields && k !in rest then Merge(d, u).fields[k] else d.fields[k]
    {
      var k :| k in rest;
      var base := if k in fields then fields[k] else JNull;
      var merged := RunMerge(base, u.fields[k]);
      fields, rest := fields[k := merged], rest - {k};
    }
    r := JObj(fields);
  }

  /** The node that a path of names leads to. */
  function At(j: Json, path: seq<string>): Option<Json>
    decreases |path|
  {
    if path == [] then Some(j)
    else if j.JObj? && path[0] in j.fields then At(j.fields[path[0]], path[1..])
    else None
  }

  /** Merging a value onto itself, or onto a table of its fields, gives it back. */
  lemma {:induction false} MergeSame(u: Json)
    ensures Merge(u, u) == u
    decreases u
  {
    if u.JObj? {
      forall k | k in u.fields ensures Merge(u.fields[k], u.fields[k]) == u.fields[k] {
        MergeSame(u.fields[k]);
      }
    }
  }

  /** Merging twice is merging once. */
  lemma {:induction false} MergeTwice(d: Json, u: Json)
    ensures Merge(Merge(d, u), u) == Merge(d, u)
    decreases u
  {
    if d.JObj? && u.JObj? {
      var m := Merge(d, u);
      forall k | k in u.fields ensures Merge(m.fields[k], u.fields[k]) == m.fields[k] {
        MergeTwice(if k in d.fields then d.fields[k] else JNull, u.fields[k]);
      }
      assert Merge(m, u).fields == m.fields;
    } else {
      MergeSame(u);
    }
  }

  predicate IsTable(j: Option<Json>) {
    j.Some? && j.value.JObj?
  }

  /**
   Where a user's value has the shape of the default, the merge of the two reads, along every path: the user's node where it is no
   table, a table of the default's fields where it is one, and the default's node where the user has none. No field of the default is
   lost and none appears.
   */
  lemma {:induction false} MergeReads(d: V, u: Json, path: seq<string>)
    requires WellFormed(d) && Shape(d, u)
    ensures var (t, m) := (ToJson(d), Merge(ToJson(d), u));
      && (At(u, path).None? ==> At(m, path) == At(t, path))
      && (At(u, path).Some? && !IsTable(At(u, path)) ==> At(m, path) == At(u, path))
      && (IsTable(At(u, path)) ==> IsTable(At(t, path)) && IsTable(At(m, path))
                                   && At(m, path).value.fields.Keys == At(t, path).value.fields.Keys)
    decreases |path|
  {
    hide Shape, WellFormed, Merge, ToJson;
    if !d.Table? {
      ScalarIsReplaced(d, u);
      ScalarHasNoPaths(d, u, path);
    } else if path == [] {
      MergeKeepsKeys(d, u);
    } else if path[0] in TableOf(d, u).fields {
      AtField(d, u, path);
      FieldFits(d, path[0]);
      MergeReads(Field(d.pairs, path[0]).value, u.fields[path[0]], path[1..]);
    } else {
      AtDefault(d, u, path);
    }
  }

  /** A user's value for a table is a table. */
  lemma TableForTable(d: V, u: Json)
    requires d.Table? && Shape(d, u)
    ensures u.JObj?
  {
  }

  function TableOf(d: V, u: Json): (r: Json)
    requires d.Table? && Shape(d, u)
    ensures r == u && r.JObj?
  {
    TableForTable(d, u);
    u
  }

  /** A value for anything but a table replaces the default, and leads nowhere, nor does the default. */
  lemma ScalarIsReplaced(d: V, u: Json)
    requires Shape(d, u) && !d.Table?
    ensures Merge(ToJson(d), u) == u
  {
  }

  lemma ScalarHasNoPaths(d: V, u: Json, path: seq<string>)
    requires Shape(d, u) && !d.Table?
    ensures !u.JObj? && !ToJson(d).JObj?
    ensures path != [] ==> At(u, path) == None == At(ToJson(d), path)
  {
  }

  lemma AtField(d: V, u: Json, path: seq<string>)
    requires d.Table? && Shape(d, u) && path != [] && path[0] in TableOf(d, u).fields
    ensures Field(d.pairs, path[0]).Some?
    ensures var (f, x, rest) := (Field(d.pairs, path[0]).value, TableOf(d, u).fields[path[0]], path[1..]);
      && Shape(f, x) && At(u, path) == At(x, rest) && At(ToJson(d), path) == At(ToJson(f), rest)
      && At(Merge(ToJson(d), u), path) == At(Merge(ToJson(f), x), rest)
  {
    FieldsAt(d.pairs, path[0]);
  }

  lemma AtDefault(d: V, u: Json, path: seq<string>)
    requires d.Table? && Shape(d, u) && path != [] && path[0] !in TableOf(d, u).fields
    ensures At(u, path) == None && At(Merge(ToJson(d), u), path) == At(ToJson(d), path)
  {
    hide Fields;
  }

  lemma FieldFits(d: V, k: string)
    requires WellFormed(d) && d.Table? && Field(d.pairs, k).Some?
    ensures WellFormed(Field(d.pairs, k).value)
  {
    assert (k, Field(d.pairs, k).value) in d.pairs;
  }

  lemma MergeKeepsKeys(d: V, u: Json)
    requires d.Table? && Shape(d, u)
    ensures u.JObj? && ToJson(d).JObj? && Merge(ToJson(d), u).JObj?
    ensures Merge(ToJson(d), u).fields.Keys == ToJson(d).fields.Keys
  {
    hide Fields;
    assert forall k :: k in u.fields ==> k in Fields(d.pairs);
  }

  /** The merge of a value of the default's shape has that shape, and exactly the default's fields. */
  lemma {:induction false} MergeKeepsShape(d: V, u: Json)
    requires WellFormed(d) && Like(d, d) && Shape(d, u)
    ensures Shape(d, Merge(ToJson(d), u))
    decreases u
  {
    if d.Table? {
      var m := Merge(ToJson(d), u);
      forall k | k in m.fields ensures Field(d.pairs, k).Some? && Shape(Field(d.pairs, k).value, m.fields[k]) {
        var f := Field(d.pairs, k).value;
        FieldsAt(d.pairs, k);
        assert LikeField(d.pairs, (k, f));
        if k in u.fields { MergeKeepsShape(f, u.fields[k]); } else { HasItsOwnShape(f); }
      }
    }
  }

  lemma EmptyMerge(d: V)
    requires d.Table?
    ensures Shape(d, JObj(map[])) && Merge(ToJson(d), JObj(map[])) == ToJson(d)
  {
    assert Merge(ToJson(d), JObj(map[])).fields == ToJson(d).fields;
  }

  /** Every merge keeps the shape of a table just when the table's own lists are of one kind. */
  lemma MergesKeepShapeExactly(d: V)
    requires WellFormed(d) && d.Table?
    ensures (forall u :: Shape(d, u) ==> Shape(d, Merge(ToJson(d), u))) <==> Like(d, d)
  {
    hide Shape, Like, Merge, ToJson;
    HasItsOwnShape(d);
    if Like(d, d) {
      forall u | Shape(d, u) ensures Shape(d, Merge(ToJson(d), u)) {
        MergeKeepsShape(d, u);
      }
    } else {
      EmptyMerge(d);
    }
  }
}
