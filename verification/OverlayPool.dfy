/**
 The owner's values installed over the shipped ones: every value and table that was ever installed is kept and reused, so that equal
 contents are the same objects, and readers search one ordered table without a lock.
 */
module OverlayPool {
  import opened Prelude
  import opened Order
  import opened Values
  import opened LeakedValues
  import opened SortedRows

  /** A value at an address of its own, never written again. */
  class Cell {
    const v: V

    constructor (v: V)
      ensures this.v == v
    {
      this.v := v;
    }
  }

  type Row = (string, Cell)

  type Content = (string, V)

  /** An installed table, never written again. */
  class Sheet {
    const rows: seq<Row>

    constructor (rows: seq<Row>)
      ensures this.rows == rows
    {
      this.rows := rows;
    }
  }

  function Content1(r: Row): Content {
    (r.0, r.1.v)
  }

  function Contents(rows: seq<Row>): (r: seq<Content>)
    ensures |r| == |rows| && forall i :: 0 <= i < |r| ==> r[i] == Content1(rows[i])
  {
    seq(|rows|, i requires 0 <= i < |rows| => Content1(rows[i]))
  }

  /** The shipped keys with a value that can be held, in the order given. */
  function Convertible(shipped: set<string>, values: seq<(string, Json)>): seq<Content> {
    if values == [] then []
    else
      var n := |values| - 1;
      var (k, j) := values[n];
      Convertible(shipped, values[..n]) + (if k in shipped && LeakValue(j).Some? then [(k, LeakValue(j).value)] else [])
  }

  function InPool(values: seq<Row>, k: string, j: Json): Option<Cell> {
    if values == [] then None
    else if values[0].0 == k && ToJson(values[0].1.v) == j then Some(values[0].1)
    else InPool(values[1..], k, j)
  }

  function SameSheet(tables: seq<Sheet>, rows: seq<Row>): Option<Sheet> {
    if tables == [] then None else if tables[0].rows == rows then Some(tables[0]) else SameSheet(tables[1..], rows)
  }

  // ---- pools

  /** No content is pooled twice, and all are in canonical form. */
  ghost predicate Canonical1(values: seq<Row>) {
    && (forall i, j :: 0 <= i < j < |values| ==> Content1(values[i]) != Content1(values[j]))
    && forall i :: 0 <= i < |values| ==> Canonical(values[i].1.v)
  }

  ghost predicate Within(rows: seq<Row>, values: seq<Row>) {
    forall i :: 0 <= i < |rows| ==> rows[i] in values
  }

  /** Rows of a pool have the same contents just when they are the same addresses. */
  lemma SameContents(values: seq<Row>, a: seq<Row>, b: seq<Row>)
    requires Canonical1(values) && Within(a, values) && Within(b, values)
    ensures Contents(a) == Contents(b) <==> a == b
  {
    if Contents(a) == Contents(b) {
      forall i | 0 <= i < |a| ensures a[i] == b[i] {
        assert Content1(a[i]) == Contents(a)[i] == Contents(b)[i] == Content1(b[i]);
        var m :| 0 <= m < |values| && values[m] == a[i];
        var n :| 0 <= n < |values| && values[n] == b[i];
      }
    }
  }

  lemma {:induction false} InPoolFinds(values: seq<Row>, k: string, j: Json)
    ensures match InPool(values, k, j)
      case Some(c) => (k, c) in values && ToJson(c.v) == j
      case None => forall i :: 0 <= i < |values| ==> !(values[i].0 == k && ToJson(values[i].1.v) == j)
  {
    if values != [] {
      InPoolFinds(values[1..], k, j);
      assert InPool(values, k, j).Some? && !(values[0].0 == k && ToJson(values[0].1.v) == j) ==>
        forall r :: r in values[1..] ==> r in values;
      if values[0].0 == k { assert values[0] == (k, values[0].1); }
      assert forall i :: 0 < i < |values| ==> values[i] == values[1..][i - 1];
    }
  }

  lemma {:induction false} SameSheetFinds(tables: seq<Sheet>, rows: seq<Row>)
    ensures match SameSheet(tables, rows)
      case Some(t) => t in tables && t.rows == rows
      case None => forall t :: t in tables ==> t.rows != rows
  {
    if tables != [] {
      SameSheetFinds(tables[1..], rows);
    }
  }

  lemma {:induction false} FirstContent(rows: seq<Row>, k: string)
    ensures First(Contents(rows), k) == match First(rows, k) case None => None case Some(c) => Some(c.v)
  {
    if rows != [] {
      FirstContent(rows[1..], k);
      assert Contents(rows)[1..] == Contents(rows[1..]);
    }
  }

  ghost function ContentSet(rows: seq<Row>): set<Content> {
    set i | 0 <= i < |rows| :: Content1(rows[i])
  }

  /** The pool holds every content given, once. */
  ghost predicate SoundPool(values: seq<Row>, given: set<Content>) {
    Canonical1(values) && ContentSet(values) == given && |values| == |given|
  }

  ghost function SheetSet(tables: seq<Sheet>): set<seq<Content>> {
    set i | 0 <= i < |tables| :: Contents(tables[i].rows)
  }

  ghost predicate GoodSheet(t: Sheet, values: seq<Row>) {
    t.rows != [] && StrictlyOrdered(t.rows) && Within(t.rows, values)
  }

  /** The tables hold every nonempty content installed, once, in strict key order and by addresses of the pool. */
  ghost predicate SoundTables(tables: seq<Sheet>, values: seq<Row>, installed: set<seq<Content>>) {
    && (forall i :: 0 <= i < |tables| ==> GoodSheet(tables[i], values))
    && SheetSet(tables) == installed && |tables| == |installed|
  }

  lemma PoolGrew(tables: seq<Sheet>, values: seq<Row>, more: seq<Row>, installed: set<seq<Content>>)
    requires SoundTables(tables, values, installed) && values <= more
    ensures SoundTables(tables, more, installed)
  {
    hide Contents, StrictlyOrdered, SheetSet;
    forall i | 0 <= i < |tables| ensures GoodSheet(tables[i], more) {
      forall j | 0 <= j < |tables[i].rows| ensures tables[i].rows[j] in more {
        var n :| 0 <= n < |values| && values[n] == tables[i].rows[j];
        assert more[n] == values[n];
      }
    }
  }

  /** A table that no installed one equals has contents that no installed one has. */
  lemma AddSheet(tables: seq<Sheet>, values: seq<Row>, given: set<Content>, installed: set<seq<Content>>, t: Sheet)
    requires SoundPool(values, given) && SoundTables(tables, values, installed)
    requires t.rows != [] && StrictlyOrdered(t.rows) && Within(t.rows, values) && forall x :: x in tables ==> x.rows != t.rows
    ensures SoundTables(tables + [t], values, installed + {Contents(t.rows)})
  {
    hide Contents, StrictlyOrdered, Canonical1;
    var more := tables + [t];
    assert GoodSheet(t, values) && more[|tables|] == t;
    assert Contents(more[|tables|].rows) in SheetSet(more);
    forall i | 0 <= i < |tables| ensures Contents(tables[i].rows) in SheetSet(more) && Contents(tables[i].rows) != Contents(t.rows) {
      assert more[i] == tables[i] && GoodSheet(tables[i], values);
      SameContents(values, tables[i].rows, t.rows);
    }
    assert SheetSet(more) == SheetSet(tables) + {Contents(t.rows)};
  }

  class Overlay {
    var values: seq<Row>
    var tables: seq<Sheet>
    var current: Sheet?
    var generation: nat
    /** Every content ever given that could be held, and every nonempty table content ever installed. */
    ghost var given: set<Content>
    ghost var installed: set<seq<Content>>

    ghost predicate Valid()
      reads this
    {
      && SoundPool(values, given)
      && SoundTables(tables, values, installed)
      && (current == null || current in tables)
    }

    /** The rows readers see. */
    function Active(): seq<Row>
      reads this
    {
      if current == null then [] else current.rows
    }

    /** The value set over a key. */
    function Over(k: string): Option<V>
      reads this
    {
      First(Contents(Active()), k)
    }

    constructor ()
      ensures Valid() && Active() == [] && generation == 0 && given == {} && installed == {}
    {
      values, tables, current, generation := [], [], null, 0;
      given, installed := {}, {};
    }

    /** What readers do: one load of the current table and a search by halving. */
    method Overlaid(k: string) returns (v: Option<V>)
      requires Valid()
      ensures v == Over(k)
    {
      if current == null {
        return None;
      }
      assert current in tables;
      var c := Search(current.rows, k);
      FirstContent(current.rows, k);
      v := match c case None => None case Some(cell) => Some(cell.v);
    }

    /** Make the value of a key one of the pool. */
    method Pooled(k: string, j: Json) returns (c: Option<Cell>)
      requires Valid()
      modifies this`values, this`given
      ensures Valid() && old(values) <= values
      ensures c.Some? <==> LeakValue(j).Some?
      ensures c.Some? ==> (k, c.value) in values && c.value.v == LeakValue(j).value
      ensures given == old(given) + if c.Some? then {(k, c.value.v)} else {}
    {
      hide SoundPool, SoundTables, LeakValue, ToJson, Canonical, InPool;
      InPoolFinds(values, k, j);
      LeakReadsBack(j);
      c := InPool(values, k, j);
      if c.Some? {
        FoundInPool(values, given, k, c.value);
        return;
      }
      var v := LeakValue(j);
      if v.None? {
        return None;
      }
      var cell := new Cell(v.value);
      GrowPool(values, given, k, cell);
      PoolGrew(tables, values, values + [(k, cell)], installed);
      values, given := values + [(k, cell)], given + {(k, cell.v)};
      c := Some(cell);
    }

    /** The rows for some values, each one in the pool. */
    method PoolAll(shipped: set<string>, vals: seq<(string, Json)>) returns (rows: seq<Row>)
      requires Valid()
      modifies this`values, this`given
      ensures Valid() && old(values) <= values && Within(rows, values)
      ensures Contents(rows) == Convertible(shipped, vals)
      ensures given == old(given) + Elements(Convertible(shipped, vals))
    {
      hide SoundPool, SoundTables, Contents, Convertible, LeakValue;
      rows := [];
      NothingConverted(shipped);
      for i := 0 to |vals|
        invariant Valid() && old(values) <= values && Within(rows, values)
        invariant Contents(rows) == Convertible(shipped, vals[..i])
        invariant given == old(given) + Elements(Convertible(shipped, vals[..i]))
      {
        var (k, j) := vals[i];
        ConvertibleSnoc(shipped, vals, i);
        if k in shipped {
          var c := Pooled(k, j);
          if c.Some? {
            ContentsSnoc(rows, (k, c.value));
            ElementsSnoc(Contents(rows), (k, c.value.v));
            rows := rows + [(k, c.value)];
          }
        }
      }
      assert vals[..|vals|] == vals;
    }

    /** Make a table the one readers see, reusing an equal one installed before. */
    method Publish(next: seq<Row>)
      requires Valid() && StrictlyOrdered(next) && Within(next, values)
      modifies this`tables, this`current, this`generation, this`installed
      ensures Valid() && Active() == next
      ensures generation == old(generation) + if next == old(Active()) then 0 else 1
      ensures current == old(current) <==> next == old(Active())
      ensures installed == old(installed) + if next == [] then {} else {Contents(next)}
    {
      hide SoundPool, SoundTables, GoodSheet, Contents, Within, StrictlyOrdered;
      InstalledSheets(tables, values, installed);
      var same := if current == null then next == [] else current.rows == next;
      if same {
        return;
      }
      if next == [] {
        current := null;
      } else {
        SameSheetFinds(tables, next);
        var t := SameSheet(tables, next);
        if t.Some? {
          current := t.value;
        } else {
          var sheet := new Sheet(next);
          AddSheet(tables, values, given, installed, sheet);
          current, tables := sheet, tables + [sheet];
          installed := installed + {Contents(next)};
        }
      }
      generation := generation + 1;
    }

    /**
     Install the owner's values: every key then answers its first value that can be held, the generation moves just when the contents
     do, and equal contents are the same table.
     */
    method SetOverlay(shipped: set<string>, vals: seq<(string, Json)>)
      requires Valid()
      modifies this
      ensures Valid() && StrictlyOrdered(Contents(Active()))
      ensures forall k :: Over(k) == First(Convertible(shipped, vals), k)
      ensures var same := Contents(Active()) == old(Contents(Active()));
        && generation == old(generation) + (if same then 0 else 1)
        && (current == old(current) <==> same)
      ensures given == old(given) + Elements(Convertible(shipped, vals))
      ensures installed == old(installed) + if Contents(Active()) == [] then {} else {Contents(Active())}
    {
      ghost var was := Active();
      var rows := PoolAll(shipped, vals);
      var next := Dedup(Sort(rows));
      InstalledRows(rows, values);
      Publish(next);
      SameContents(values, was, next);
      forall k ensures Over(k) == First(Convertible(shipped, vals), k) {
        SortKeepsFirst(rows, k);
        DedupKeepsFirst(Sort(rows), k);
        FirstContent(rows, k);
        FirstContent(next, k);
      }
    }
  }

  lemma InstalledSheets(tables: seq<Sheet>, values: seq<Row>, installed: set<seq<Content>>)
    requires SoundTables(tables, values, installed)
    ensures forall t :: t in tables ==> Contents(t.rows) in installed && t.rows != [] && StrictlyOrdered(t.rows)
  {
    forall t | t in tables ensures Contents(t.rows) in installed && t.rows != [] && StrictlyOrdered(t.rows) {
      var i :| 0 <= i < |tables| && tables[i] == t;
      assert GoodSheet(tables[i], values);
    }
  }

  ghost function Elements(cs: seq<Content>): set<Content> {
    set c | c in cs
  }

  lemma NothingConverted(shipped: set<string>)
    ensures Convertible(shipped, []) == [] == Contents([])
  {
  }

  lemma ConvertibleSnoc(shipped: set<string>, vals: seq<(string, Json)>, i: nat)
    requires i < |vals|
    ensures Convertible(shipped, vals[..i + 1]) ==
      var (k, j) := vals[i];
      Convertible(shipped, vals[..i]) + if k in shipped && LeakValue(j).Some? then [(k, LeakValue(j).value)] else []
  {
    assert vals[..i + 1][..i] == vals[..i] && vals[..i + 1][i] == vals[i];
  }

  lemma ContentsSnoc(rows: seq<Row>, row: Row)
    ensures Contents(rows + [row]) == Contents(rows) + [Content1(row)]
  {
  }

  lemma ElementsSnoc(cs: seq<Content>, c: Content)
    ensures Elements(cs + [c]) == Elements(cs) + {c}
  {
  }

  lemma InstalledRows(rows: seq<Row>, values: seq<Row>)
    requires Within(rows, values)
    ensures StrictlyOrdered(Dedup(Sort(rows))) && Within(Dedup(Sort(rows)), values)
  {
    SortKeepsFirst(rows, "");
    DedupKeepsFirst(Sort(rows), "");
    forall r | r in Dedup(Sort(rows)) ensures r in values {
      assert r in Sort(rows) && r in rows;
    }
  }

  lemma FoundInPool(values: seq<Row>, given: set<Content>, k: string, c: Cell)
    requires SoundPool(values, given) && (k, c) in values
    ensures LeakValue(ToJson(c.v)) == Some(c.v) && (k, c.v) in given
  {
    var i :| 0 <= i < |values| && values[i] == (k, c);
    CanonicalReturns(c.v);
    assert Content1(values[i]) in ContentSet(values);
  }

  lemma GrowPool(values: seq<Row>, given: set<Content>, k: string, cell: Cell)
    requires SoundPool(values, given) && Canonical(cell.v)
    requires forall i :: 0 <= i < |values| ==> !(values[i].0 == k && ToJson(values[i].1.v) == ToJson(cell.v))
    ensures SoundPool(values + [(k, cell)], given + {(k, cell.v)})
  {
    hide Canonical, ToJson;
    var more := values + [(k, cell)];
    assert more[|values|] == (k, cell);
    assert Content1(more[|values|]) in ContentSet(more);
    forall i | 0 <= i < |values| ensures Content1(values[i]) in ContentSet(more) {
      assert more[i] == values[i];
    }
    assert ContentSet(more) == ContentSet(values) + {(k, cell.v)};
  }
}
