/** The user's config file: its tables walked down to the shipped settings, each value checked on the way. */
module UserFile {
  import opened Prelude
  import opened Values
  import opened Settings

  /** A parsed TOML value; the fields of a table in the order they are visited. */
  datatype Toml =
    | TStr(s: string)
    | TInt(n: I64)
    | TFloat(finite: bool, text: string)
    | TBool(b: bool)
    | TDate
    | TArr(items: seq<Toml>)
    | TTable(fields: seq<(string, Toml)>)

  datatype Refusal = Locked(key: string) | Unsupported(key: string) | BadShape(key: string) | OutOfRange(key: string, n: I64) | UnknownKey(key: string)

  function Convert(t: Toml): Option<Json> {
    match t
    case TStr(s) => Some(JStr(s))
    case TInt(n) => Some(JInt(n))
    case TFloat(finite, text) => if finite then Some(JNum(Real(text))) else None
    case TBool(b) => Some(JBool(b))
    case TDate => None
    case TArr(items) => (match ConvertItems(items) case None => None case Some(js) => Some(JArr(js)))
    case TTable(fields) => (match ConvertFields(fields, map[]) case None => None case Some(m) => Some(JObj(m)))
  }

  function ConvertItems(items: seq<Toml>): Option<seq<Json>> {
    if items == [] then Some([])
    else match (Convert(items[0]), ConvertItems(items[1..]))
      case (Some(j), Some(js)) => Some([j] + js)
      case _ => None
  }

  function ConvertFields(fields: seq<(string, Toml)>, m: map<string, Json>): Option<map<string, Json>> {
    if fields == [] then Some(m)
    else
      assert fields[0].1 < fields[0];
      match Convert(fields[0].1)
      case None => None
      case Some(j) => ConvertFields(fields[1..], m[fields[0].0 := j])
  }

  function Full(prefix: string, k: string): string {
    if prefix == "" then k else prefix + "." + k
  }

  /** The value of one node for its setting, or why it is refused. */
  function Check(sh: Shipped, full: string, v: Toml): Result<Json, Refusal> {
    if full !in sh.entries then Err(UnknownKey(full))
    else if sh.locked(full) then Err(Locked(full))
    else match Convert(v)
      case None => Err(Unsupported(full))
      case Some(j) =>
        var e := sh.entries[full];
        if !Shape(e.value, j) then Err(BadShape(full))
        else if e.value.Int? && !InRange(e, AsInt(j).value) then Err(OutOfRange(full, AsInt(j).value))
        else Ok(j)
  }

  /** The settings of a table added to the ones collected so far. */
  function Flatten(sh: Shipped, prefix: string, fields: seq<(string, Toml)>, found: map<string, Json>): Result<map<string, Json>, Refusal>
    decreases fields
  {
    if fields == [] then Ok(found)
    else
      var (k, v) := fields[0];
      var full := Full(prefix, k);
      assert v < fields[0];
      if full !in sh.entries && v.TTable? then
        match Flatten(sh, full, v.fields, found)
        case Err(why) => Err(why)
        case Ok(more) => Flatten(sh, prefix, fields[1..], more)
      else match Check(sh, full, v)
        case Err(why) => Err(why)
        case Ok(j) => Flatten(sh, prefix, fields[1..], found[full := j])
  }

  method RunFlatten(sh: Shipped, prefix: string, fields: seq<(string, Toml)>, found: map<string, Json>)
    returns (r: Result<map<string, Json>, Refusal>)
    ensures r == Flatten(sh, prefix, fields, found)
    decreases fields
  {
    var all := found;
    for i := 0 to |fields|
      invariant Flatten(sh, prefix, fields[i..], all) == Flatten(sh, prefix, fields, found)
    {
      var (k, v) := fields[i];
      var full := Full(prefix, k);
      assert fields[i..][0] == fields[i] && fields[i..][1..] == fields[i + 1..];
      if full in sh.entries {
        if sh.locked(full) {
          return Err(Locked(full));
        }
        var j := Convert(v);
        if j.None? {
          return Err(Unsupported(full));
        }
        var e := sh.entries[full];
        if !Shape(e.value, j.value) {
          return Err(BadShape(full));
        }
        if e.value.Int? && AsInt(j.value).Some? {
          var n := AsInt(j.value).value;
          if (e.min.Some? && n < e.min.value) || (e.max.Some? && n > e.max.value) {
            return Err(OutOfRange(full, n));
          }
        }
        all := all[full := j.value];
      } else if v.TTable? {
        assert v < fields[i] && fields[i] in fields;
        var below := RunFlatten(sh, full, v.fields, all);
        if below.Err? {
          return below;
        }
        all := below.value;
      } else {
        return Err(UnknownKey(full));
      }
    }
    r := Ok(all);
  }

  // ---- what the walk accepts

  /** The nodes where the walk stops, with their full names, in the order visited. */
  function Stops(sh: Shipped, prefix: string, fields: seq<(string, Toml)>): seq<(string, Toml)>
    decreases fields
  {
    if fields == [] then []
    else
      var (k, v) := fields[0];
      var full := Full(prefix, k);
      assert v < fields[0];
      (if full !in sh.entries && v.TTable? then Stops(sh, full, v.fields) else [(full, v)]) + Stops(sh, prefix, fields[1..])
  }

  /** The values of some nodes put over the ones found, a later node over an earlier one. */
  function SetAll(sh: Shipped, nodes: seq<(string, Toml)>, found: map<string, Json>): map<string, Json> {
    if nodes == [] then found
    else
      var next := match Check(sh, nodes[0].0, nodes[0].1) case Ok(j) => found[nodes[0].0 := j] case Err(_) => found;
      SetAll(sh, nodes[1..], next)
  }

  ghost predicate AllPass(sh: Shipped, nodes: seq<(string, Toml)>) {
    forall n :: n in nodes ==> Check(sh, n.0, n.1).Ok?
  }

  lemma {:induction false} SetAllAppend(sh: Shipped, a: seq<(string, Toml)>, b: seq<(string, Toml)>, found: map<string, Json>)
    ensures SetAll(sh, a + b, found) == SetAll(sh, b, SetAll(sh, a, found))
  {
    hide Check;
    if a == [] {
      assert a + b == b;
    } else {
      assert (a + b)[1..] == a[1..] + b;
      var next := match Check(sh, a[0].0, a[0].1) case Ok(j) => found[a[0].0 := j] case Err(_) => found;
      SetAllAppend(sh, a[1..], b, next);
    }
  }

  /** The file is accepted just when every node where the walk stops passes, and then sets those nodes' values in order. */
  lemma {:induction false} FlattenSetsStops(sh: Shipped, prefix: string, fields: seq<(string, Toml)>, found: map<string, Json>)
    ensures var nodes := Stops(sh, prefix, fields);
      && (Flatten(sh, prefix, fields, found).Ok? <==> AllPass(sh, nodes))
      && (AllPass(sh, nodes) ==> Flatten(sh, prefix, fields, found).value == SetAll(sh, nodes, found))
    decreases fields
  {
    hide Check;
    if fields != [] {
      var (k, v) := fields[0];
      var full := Full(prefix, k);
      var rest := Stops(sh, prefix, fields[1..]);
      assert v < fields[0];
      if full !in sh.entries && v.TTable? {
        var inner := Stops(sh, full, v.fields);
        FlattenSetsStops(sh, full, v.fields, found);
        SetAllAppend(sh, inner, rest, found);
        assert AllPass(sh, inner + rest) <==> AllPass(sh, inner) && AllPass(sh, rest);
        FlattenSetsStops(sh, prefix, fields[1..], SetAll(sh, inner, found));
      } else {
        assert ([(full, v)] + rest)[1..] == rest;
        assert AllPass(sh, [(full, v)] + rest) <==> Check(sh, full, v).Ok? && AllPass(sh, rest);
        if Check(sh, full, v).Ok? {
          FlattenSetsStops(sh, prefix, fields[1..], found[full := Check(sh, full, v).value]);
        }
      }
    }
  }

  /** What an accepted file sets is shipped, unlocked, of the shipped shape and in range. */
  lemma {:induction false} FlattenIsValid(sh: Shipped, prefix: string, fields: seq<(string, Toml)>, found: map<string, Json>)
    requires ValidUser(sh, found) && Flatten(sh, prefix, fields, found).Ok?
    ensures ValidUser(sh, Flatten(sh, prefix, fields, found).value)
    decreases fields
  {
    if fields != [] {
      var (k, v) := fields[0];
      var full := Full(prefix, k);
      assert v < fields[0];
      if full !in sh.entries && v.TTable? {
        FlattenIsValid(sh, full, v.fields, found);
        FlattenIsValid(sh, prefix, fields[1..], Flatten(sh, full, v.fields, found).value);
      } else {
        FlattenIsValid(sh, prefix, fields[1..], found[full := Check(sh, full, v).value]);
      }
    }
  }

  // ---- a shipped value written in the file

  /** A shipped value as the file would give it. */
  function Write(v: V): Toml {
    match v
    case Int(n) => TInt(n)
    case Bool(b) => TBool(b)
    case Str(s) => TStr(s)
    case List(items) => TArr(WriteItems(items))
    case Table(pairs) => TTable(WritePairs(pairs))
  }

  function WriteItems(items: seq<V>): seq<Toml> {
    if items == [] then [] else [Write(items[0])] + WriteItems(items[1..])
  }

  function WritePairs(pairs: seq<(string, V)>): seq<(string, Toml)> {
    if pairs == [] then []
    else
      assert pairs[0].1 < pairs[0];
      [(pairs[0].0, Write(pairs[0].1))] + WritePairs(pairs[1..])
  }

  /** What is written is read as the shipped value. */
  lemma {:induction false} WrittenIsRead(v: V)
    requires WellFormed(v)
    ensures Convert(Write(v)) == Some(ToJson(v))
    decreases v
  {
    match v
    case List(items) => ItemsAreRead(items);
    case Table(pairs) =>
      hide Fields, WellFormed;
      PairsAreRead(pairs, map[]);
      assert map[] + Fields(pairs) == Fields(pairs);
    case _ =>
  }

  lemma {:induction false} ItemsAreRead(items: seq<V>)
    requires forall x :: x in items ==> WellFormed(x)
    ensures ConvertItems(WriteItems(items)) == Some(ToJsons(items))
    decreases items
  {
    if items != [] {
      WrittenIsRead(items[0]);
      ItemsAreRead(items[1..]);
      assert WriteItems(items)[1..] == WriteItems(items[1..]);
    }
  }

  lemma {:induction false} PairsAreRead(pairs: seq<(string, V)>, m: map<string, Json>)
    requires WellFormed(Table(pairs))
    ensures ConvertFields(WritePairs(pairs), m) == Some(m + Fields(pairs))
    decreases pairs
  {
    hide WellFormed, Convert, Write, ToJson, Fields;
    if pairs == [] {
      NoPairs();
      assert m + Fields(pairs) == m;
    } else {
      var (k, v) := pairs[0];
      FirstOfPairs(pairs);
      WrittenIsRead(v);
      assert WritePairs(pairs)[1..] == WritePairs(pairs[1..]);
      PairsAreRead(pairs[1..], m[k := ToJson(v)]);
      Extends(m, Fields(pairs[1..]), k, ToJson(v));
    }
  }

  lemma Extends(m: map<string, Json>, rest: map<string, Json>, k: string, j: Json)
    requires k !in rest
    ensures m[k := j] + rest == m + rest[k := j]
  {
  }

  lemma NoPairs()
    ensures Fields([]) == map[]
  {
  }

  lemma FirstOfPairs(pairs: seq<(string, V)>)
    requires pairs != [] && WellFormed(Table(pairs))
    ensures WellFormed(pairs[0].1) && WellFormed(Table(pairs[1..])) && pairs[0].1 < pairs[0]
    ensures pairs[0].0 !in Fields(pairs[1..])
    ensures Fields(pairs) == Fields(pairs[1..])[pairs[0].0 := ToJson(pairs[0].1)]
  {
    var rest := pairs[1..];
    assert pairs[0] in pairs && forall p :: p in rest ==> p in pairs;
    forall p | p in rest ensures p.0 != pairs[0].0 {
      var i :| 0 <= i < |rest| && rest[i] == p;
      assert rest[i] == pairs[i + 1];
    }
  }

  /** Writing a setting's shipped value in the file is accepted, when it may be changed and is itself in order, and changes no effective value. */
  lemma ShippedValueIsAccepted(sh: Shipped, k: string, env: Env, rd: Reading)
    requires ValidShipped(sh) && k in sh.entries && !sh.locked(k) && k != "" && Like(sh.entries[k].value, sh.entries[k].value)
    requires sh.entries[k].value.Int? ==> InRange(sh.entries[k], sh.entries[k].value.n)
    ensures var e := sh.entries[k];
      && Flatten(sh, "", [(k, Write(e.value))], map[]) == Ok(map[k := ToJson(e.value)])
      && ResolveOne(sh, e, Layers(JNull, map[k := ToJson(e.value)]), env, rd).value == ResolveOne(sh, e, Layers(JNull, map[]), env, rd).value
  {
    hide Convert, Shape, Like, Merge, WellFormed;
    var e := sh.entries[k];
    var fields := [(k, Write(e.value))];
    WrittenIsRead(e.value);
    HasItsOwnShape(e.value);
    MergeSame(ToJson(e.value));
    assert fields[1..] == [];
    assert Check(sh, k, Write(e.value)) == Ok(ToJson(e.value));
    assert Flatten(sh, "", fields, map[]) == Flatten(sh, "", fields[1..], map[k := ToJson(e.value)]);
  }

  // ---- the names of nested settings

  /** A value in nested tables, one for each name. */
  function InTables(parts: seq<string>, v: Toml): Toml {
    if parts == [] then v else TTable([(parts[0], InTables(parts[1..], v))])
  }

  /** The names from the outermost table on, with dots between them. */
  function Dotted(parts: seq<string>): string {
    if parts == [] then "" else if |parts| == 1 then parts[0] else Dotted(parts[..|parts| - 1]) + "." + parts[|parts| - 1]
  }

  lemma FullIsDotted(before: seq<string>, k: string)
    requires forall q :: q in before ==> q != ""
    ensures Full(Dotted(before), k) == Dotted(before + [k])
  {
    DottedNonEmpty(before);
    assert (before + [k])[..|before|] == before;
  }

  lemma {:induction false} DottedNonEmpty(parts: seq<string>)
    requires forall q :: q in parts ==> q != ""
    ensures Dotted(parts) == "" <==> parts == []
  {
    if |parts| == 1 {
      assert parts[0] in parts;
    }
  }

  /**
   A value in nested tables is that of the setting named by their names with dots between, when no shorter such name is a setting: it is
   accepted and set just when it passes the checks of that setting.
   */
  lemma NestedTablesNameTheSetting(sh: Shipped, parts: seq<string>, v: Toml)
    requires parts != [] && (forall q :: q in parts ==> q != "")
    requires Dotted(parts) in sh.entries && forall n :: 0 < n < |parts| ==> Dotted(parts[..n]) !in sh.entries
    ensures Flatten(sh, "", [(parts[0], InTables(parts[1..], v))], map[]) ==
      match Check(sh, Dotted(parts), v) case Ok(j) => Ok(map[Dotted(parts) := j]) case Err(why) => Err(why)
  {
    assert [] + parts == parts;
    TablesFlatten(sh, [], parts, v, map[]);
  }

  lemma {:induction false} TablesFlatten(sh: Shipped, before: seq<string>, parts: seq<string>, v: Toml, found: map<string, Json>)
    requires parts != [] && (forall q :: q in before + parts ==> q != "")
    requires forall n :: |before| < n < |before| + |parts| ==> Dotted((before + parts)[..n]) !in sh.entries
    requires Dotted(before + parts) in sh.entries
    ensures Flatten(sh, Dotted(before), [(parts[0], InTables(parts[1..], v))], found) ==
      match Check(sh, Dotted(before + parts), v) case Ok(j) => Ok(found[Dotted(before + parts) := j]) case Err(why) => Err(why)
    decreases |parts|
  {
    hide Check;
    var inner := InTables(parts[1..], v);
    var deeper := before + [parts[0]];
    assert forall q :: q in before ==> q in before + parts;
    FullIsDotted(before, parts[0]);
    assert (before + parts)[..|before| + 1] == deeper && deeper + parts[1..] == before + parts;
    assert [(parts[0], inner)][1..] == [];
    if |parts| == 1 {
      assert parts[1..] == [] && before + parts == deeper;
    } else {
      TablesFlatten(sh, deeper, parts[1..], v, found);
      assert inner == TTable([(parts[1], InTables(parts[2..], v))]) && parts[1..][1..] == parts[2..];
    }
  }

  /** What a value for a setting must pass, in the order checked: not locked, convertible, of the shape, and a number in range. */
  lemma ChecksInOrder(sh: Shipped, k: string, v: Toml)
    requires k in sh.entries
    ensures var (e, r) := (sh.entries[k], Check(sh, k, v));
      && (r == Err(Locked(k)) <==> sh.locked(k))
      && (r == Err(Unsupported(k)) <==> !sh.locked(k) && Convert(v).None?)
      && (r == Err(BadShape(k)) <==> !sh.locked(k) && Convert(v).Some? && !Shape(e.value, Convert(v).value))
      && (r.Ok? ==> Convert(v) == Some(r.value) && Shape(e.value, r.value) && (e.value.Int? ==> InRange(e, r.value.num.n)))
      && (r.Err? && r.error.OutOfRange? ==> e.value.Int? && Convert(v) == Some(JInt(r.error.n)) && !InRange(e, r.error.n))
  {
    hide Convert;
  }
}
