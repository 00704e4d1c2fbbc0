/** The order of keys: texts compared character by character. */
module Order {

  predicate Less(a: string, b: string) {
    if b == "" then false
    else if a == "" then true
    else a[0] < b[0] || (a[0] == b[0] && Less(a[1..], b[1..]))
  }

  lemma {:induction false} LessIrreflexive(a: string)
    ensures !Less(a, a)
  {
    if a != "" { LessIrreflexive(a[1..]); }
  }

  lemma {:induction false} LessTotal(a: string, b: string)
    ensures Less(a, b) || a == b || Less(b, a)
  {
    if a != "" && b != "" && a[0] == b[0] {
      LessTotal(a[1..], b[1..]);
      assert a == [a[0]] + a[1..] && b == [b[0]] + b[1..];
    }
  }

  lemma {:induction false} LessTransitive(a: string, b: string, c: string)
    requires Less(a, b) && Less(b, c)
    ensures Less(a, c)
  {
    if a != "" && a[0] == b[0] && b[0] == c[0] {
      LessTransitive(a[1..], b[1..], c[1..]);
    }
  }

  predicate Ascending(keys: seq<string>) {
    forall i, j :: 0 <= i < j < |keys| ==> Less(keys[i], keys[j])
  }

  /** The keys of a set in ascending order. */
  function SortKeys(keys: set<string>): (r: seq<string>)
    ensures forall k :: k in r <==> k in keys
    ensures Ascending(r)
  {
    if keys == {} then [] else
      var least := Least(keys);
      var rest := SortKeys(keys - {least});
      assert forall i :: 0 <= i < |rest| ==> rest[i] in keys - {least};
      [least] + rest
  }

  predicate IsLeast(keys: set<string>, r: string) {
    r in keys && forall k :: k in keys && k != r ==> Less(r, k)
  }

  function Least(keys: set<string>): (r: string)
    requires keys != {}
    ensures IsLeast(keys, r)
  {
    LeastExists(keys);
    LeastIsOne(keys);
    var r :| r in keys && IsLeast(keys, r);
    r
  }

  lemma LeastIsOne(keys: set<string>)
    ensures forall a, b :: IsLeast(keys, a) && IsLeast(keys, b) ==> a == b
  {
    forall a, b | IsLeast(keys, a) && IsLeast(keys, b) ensures a == b {
      if a != b {
        LessTransitive(a, b, a);
        LessIrreflexive(a);
      }
    }
  }

  lemma {:induction false} LeastExists(keys: set<string>)
    requires keys != {}
    ensures exists r :: IsLeast(keys, r)
  {
    var x :| x in keys;
    if x' :| x' in keys && x' != x {
      assert x' in keys - {x};
      LeastExists(keys - {x});
      var y :| IsLeast(keys - {x}, y);
      LessTotal(x, y);
      if Less(x, y) {
        LessThanLeast(keys, x, y);
      } else {
        assert IsLeast(keys, y);
      }
    } else {
      assert IsLeast(keys, x);
    }
  }

  lemma LessThanLeast(keys: set<string>, x: string, y: string)
    requires x in keys && IsLeast(keys - {x}, y) && Less(x, y)
    ensures IsLeast(keys, x)
  {
    forall k | k in keys && k != x ensures Less(x, k) {
      if k != y { LessTransitive(x, y, k); }
    }
  }

  /** Two ascending lists of the same keys are the same list. */
  lemma {:induction false} AscendingIsUnique(a: seq<string>, b: seq<string>)
    requires Ascending(a) && Ascending(b) && forall k :: k in a <==> k in b
    ensures a == b
  {
    if a == [] {
      if b != [] { HasKey(b); }
    } else {
      assert a[0] in b;
      var (x, y) := (a[0], b[0]);
      assert y in a;
      if x != y {
        assert Less(x, y) && Less(y, x);
        LessTransitive(x, y, x);
        LessIrreflexive(x);
      }
      forall k ensures k in a[1..] <==> k in b[1..] {
        LessIrreflexive(x);
        assert k in a <==> k == x || k in a[1..];
        assert k in b <==> k == x || k in b[1..];
        assert x !in a[1..] && x !in b[1..];
      }
      AscendingIsUnique(a[1..], b[1..]);
      assert a == [x] + a[1..] && b == [y] + b[1..];
    }
  }

  lemma HasKey(keys: seq<string>)
    requires keys != []
    ensures exists k :: k in keys
  {
    assert keys[0] in keys;
  }
}
