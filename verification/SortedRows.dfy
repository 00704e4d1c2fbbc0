/** Rows of a key and a value: put in key order, the first row of each key kept, and searched by halving. */
module SortedRows {
  import opened Prelude
  import opened Order

  /** The value of the first row with a key. */
  function First<T>(rows: seq<(string, T)>, k: string): Option<T> {
    if rows == [] then None else if rows[0].0 == k then Some(rows[0].1) else First(rows[1..], k)
  }

  predicate WeaklyOrdered<T>(rows: seq<(string, T)>) {
    forall i, j :: 0 <= i < j < |rows| ==> !Less(rows[j].0, rows[i].0)
  }

  predicate StrictlyOrdered<T>(rows: seq<(string, T)>) {
    forall i, j :: 0 <= i < j < |rows| ==> Less(rows[i].0, rows[j].0)
  }

  function Insert<T>(rows: seq<(string, T)>, row: (string, T)): seq<(string, T)> {
    if rows == [] || Less(row.0, rows[0].0) then [row] + rows else [rows[0]] + Insert(rows[1..], row)
  }

  /** A stable sort by key. */
  function Sort<T>(rows: seq<(string, T)>): seq<(string, T)> {
    if rows == [] then [] else Insert(Sort(rows[..|rows| - 1]), rows[|rows| - 1])
  }

  /** Of rows with the same key that stand together, the first. */
  function Dedup<T>(rows: seq<(string, T)>): seq<(string, T)>
    decreases |rows|
  {
    if |rows| < 2 then rows
    else if rows[0].0 == rows[1].0 then Dedup([rows[0]] + rows[2..])
    else [rows[0]] + Dedup(rows[1..])
  }

  lemma {:induction false} FirstNone<T>(rows: seq<(string, T)>, k: string)
    requires forall i :: 0 <= i < |rows| ==> rows[i].0 != k
    ensures First(rows, k) == None
  {
    if rows != [] { FirstNone(rows[1..], k); }
  }

  lemma FirstCons<T>(row: (string, T), rows: seq<(string, T)>, k: string)
    ensures First([row] + rows, k) == if row.0 == k then Some(row.1) else First(rows, k)
  {
    assert ([row] + rows)[1..] == rows;
  }

  lemma {:induction false} InsertRow<T>(rows: seq<(string, T)>, row: (string, T), k: string)
    requires WeaklyOrdered(rows)
    ensures WeaklyOrdered(Insert(rows, row))
    ensures forall r :: r in Insert(rows, row) <==> r == row || r in rows
    ensures First(Insert(rows, row), k) == if First(rows, k).Some? then First(rows, k) else if row.0 == k then Some(row.1) else None
  {
    hide Less;
    if rows == [] {
      FirstCons(row, rows, k);
    } else if Less(row.0, rows[0].0) {
      InsertBefore(rows, row);
      FirstCons(row, rows, k);
      if row.0 == k { FirstNone(rows, k); }
    } else {
      InsertRow(rows[1..], row, k);
      FirstCons(rows[0], Insert(rows[1..], row), k);
      InsertAfter(rows, row, Insert(rows[1..], row));
    }
  }

  lemma InsertBefore<T>(rows: seq<(string, T)>, row: (string, T))
    requires WeaklyOrdered(rows) && rows != [] && Less(row.0, rows[0].0)
    ensures WeaklyOrdered([row] + rows)
    ensures forall i :: 0 <= i < |rows| ==> rows[i].0 != row.0
  {
    forall i | 0 <= i < |rows| ensures Less(row.0, rows[i].0) && rows[i].0 != row.0 && !Less(rows[i].0, row.0) {
      if i > 0 {
        LessTotal(rows[0].0, rows[i].0);
        if Less(rows[0].0, rows[i].0) { LessTransitive(row.0, rows[0].0, rows[i].0); }
      }
      LessIrreflexive(row.0);
      if Less(rows[i].0, row.0) { LessTransitive(row.0, rows[i].0, row.0); }
    }
  }

  lemma InsertAfter<T>(rows: seq<(string, T)>, row: (string, T), more: seq<(string, T)>)
    requires WeaklyOrdered(rows) && rows != [] && !Less(row.0, rows[0].0)
    requires WeaklyOrdered(more) && forall r :: r in more <==> r == row || r in rows[1..]
    ensures WeaklyOrdered([rows[0]] + more)
    ensures forall r :: r in [rows[0]] + more <==> r == row || r in rows
  {
    hide Less;
    forall j | 0 <= j < |more| ensures !Less(more[j].0, rows[0].0) {
      var r := more[j];
      assert r in more;
    }
    assert forall r :: r in rows <==> r == rows[0] || r in rows[1..];
  }

  /** Sorting puts the rows in order, adds and drops none, and leaves the first row of each key the first. */
  lemma {:induction false} SortKeepsFirst<T>(rows: seq<(string, T)>, k: string)
    ensures WeaklyOrdered(Sort(rows))
    ensures forall r :: r in Sort(rows) <==> r in rows
    ensures First(Sort(rows), k) == First(rows, k)
  {
    hide Less, Insert;
    if rows != [] {
      var n := |rows| - 1;
      SortKeepsFirst(rows[..n], k);
      InsertRow(Sort(rows[..n]), rows[n], k);
      FirstSnoc(rows[..n], rows[n], k);
      assert rows == rows[..n] + [rows[n]];
    }
  }

  lemma {:induction false} FirstSnoc<T>(rows: seq<(string, T)>, row: (string, T), k: string)
    ensures First(rows + [row], k) == if First(rows, k).Some? then First(rows, k) else if row.0 == k then Some(row.1) else None
  {
    if rows != [] {
      FirstSnoc(rows[1..], row, k);
      assert (rows + [row])[1..] == rows[1..] + [row];
    } else {
      assert ([row])[1..] == [];
      assert rows + [row] == [row];
    }
  }

  /** Dropping repeats of ordered rows leaves them strictly ordered, with the first row of each key. */
  lemma {:induction false} DedupKeepsFirst<T>(rows: seq<(string, T)>, k: string)
    requires WeaklyOrdered(rows)
    ensures StrictlyOrdered(Dedup(rows)) && (rows != [] ==> Dedup(rows) != [] && Dedup(rows)[0] == rows[0])
    ensures forall r :: r in Dedup(rows) ==> r in rows
    ensures First(Dedup(rows), k) == First(rows, k)
    decreases |rows|
  {
    hide Less;
    if |rows| >= 2 {
      if rows[0].0 == rows[1].0 {
        DropSecond(rows, k);
        DedupKeepsFirst([rows[0]] + rows[2..], k);
      } else {
        DedupKeepsFirst(rows[1..], k);
        FirstCons(rows[0], Dedup(rows[1..]), k);
        KeepHead(rows, Dedup(rows[1..]));
      }
    }
  }

  lemma DropSecond<T>(rows: seq<(string, T)>, k: string)
    requires |rows| >= 2 && rows[0].0 == rows[1].0 && WeaklyOrdered(rows)
    ensures First([rows[0]] + rows[2..], k) == First(rows, k)
    ensures WeaklyOrdered([rows[0]] + rows[2..])
    ensures forall r :: r in [rows[0]] + rows[2..] ==> r in rows
  {
    FirstCons(rows[0], rows[2..], k);
    assert rows[1..][1..] == rows[2..];
  }

  lemma KeepHead<T>(rows: seq<(string, T)>, kept: seq<(string, T)>)
    requires |rows| >= 2 && rows[0].0 != rows[1].0 && WeaklyOrdered(rows)
    requires StrictlyOrdered(kept) && kept != [] && kept[0] == rows[1] && forall r :: r in kept ==> r in rows[1..]
    ensures StrictlyOrdered([rows[0]] + kept)
    ensures forall r :: r in [rows[0]] + kept ==> r in rows
  {
    hide Less;
    LessTotal(rows[0].0, rows[1].0);
    forall j | 0 < j < |kept| ensures Less(rows[0].0, kept[j].0) {
      LessTransitive(rows[0].0, rows[1].0, kept[j].0);
    }
  }

  /** Strictly ordered rows that answer every key alike are the same rows. */
  lemma {:induction false} LookupsDetermineRows<T>(a: seq<(string, T)>, b: seq<(string, T)>)
    requires StrictlyOrdered(a) && StrictlyOrdered(b) && forall k :: First(a, k) == First(b, k)
    ensures a == b
    decreases |a|
  {
    hide Less;
    if a != [] && b != [] {
      var (x, y) := (a[0].0, b[0].0);
      FirstAt(a, 0);
      FirstAt(b, 0);
      if x != y {
        FirstIsRow(b, x);
        FirstIsRow(a, y);
        LessTransitive(x, y, x);
        LessIrreflexive(x);
      }
      forall k ensures First(a[1..], k) == First(b[1..], k) {
        if k == x {
          TailLacks(a);
          TailLacks(b);
        } else {
          assert First(a, k) == First(a[1..], k) && First(b, k) == First(b[1..], k);
        }
      }
      LookupsDetermineRows(a[1..], b[1..]);
    } else if a != [] {
      FirstAt(a, 0);
    } else if b != [] {
      FirstAt(b, 0);
    }
  }

  lemma TailLacks<T>(rows: seq<(string, T)>)
    requires StrictlyOrdered(rows) && rows != []
    ensures First(rows[1..], rows[0].0) == None
  {
    forall i | 0 <= i < |rows| - 1 ensures rows[1..][i].0 != rows[0].0 {
      LessIrreflexive(rows[0].0);
    }
    FirstNone(rows[1..], rows[0].0);
  }

  /** Where the first row of a key stands. */
  lemma {:induction false} FirstIsRow<T>(rows: seq<(string, T)>, k: string)
    requires First(rows, k).Some?
    ensures exists i :: 0 <= i < |rows| && rows[i] == (k, First(rows, k).value)
  {
    if rows[0].0 == k {
      assert rows[0] == (k, First(rows, k).value);
    } else {
      FirstIsRow(rows[1..], k);
      var i :| 0 <= i < |rows| - 1 && rows[1..][i] == (k, First(rows, k).value);
      assert rows[i + 1] == (k, First(rows, k).value);
    }
  }

  lemma {:induction false} FirstAt<T>(rows: seq<(string, T)>, i: nat)
    requires StrictlyOrdered(rows) && i < |rows|
    ensures First(rows, rows[i].0) == Some(rows[i].1)
  {
    if i > 0 {
      LessIrreflexive(rows[i].0);
      assert Less(rows[0].0, rows[i].0);
      FirstAt(rows[1..], i - 1);
    }
  }

  /** A search by halving finds just what a search from the front finds. */
  method Search<T>(rows: seq<(string, T)>, k: string) returns (r: Option<T>)
    requires StrictlyOrdered(rows)
    ensures r == First(rows, k)
  {
    var low, high := 0, |rows|;
    while low < high
      invariant 0 <= low <= high <= |rows|
      invariant forall i :: 0 <= i < low ==> Less(rows[i].0, k)
      invariant forall i :: high <= i < |rows| ==> Less(k, rows[i].0)
    {
      var mid := (low + high) / 2;
      if rows[mid].0 == k {
        FirstAt(rows, mid);
        return Some(rows[mid].1);
      } else if Less(rows[mid].0, k) {
        forall i | 0 <= i < mid ensures Less(rows[i].0, k) {
          LessTransitive(rows[i].0, rows[mid].0, k);
        }
        low := mid + 1;
      } else {
        LessTotal(k, rows[mid].0);
        forall i | mid < i < |rows| ensures Less(k, rows[i].0) {
          LessTransitive(k, rows[mid].0, rows[i].0);
        }
        high := mid;
      }
    }
    LessIrreflexive(k);
    FirstNone(rows, k);
    r := None;
  }
}
