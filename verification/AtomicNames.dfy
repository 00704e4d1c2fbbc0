/**
 The temporary sibling of a state file: the target's name, the process id and a per-process counter, so no two live writes share one.
 */
module AtomicNames {

  function Digit(d: nat): char
    requires d < 10
  {
    "0123456789"[d]
  }

  /** A number in decimal. */
  function Decimal(n: nat): (s: string)
    ensures s != [] && NoDot(s)
  {
    if n < 10 then [Digit(n)] else Decimal(n / 10) + [Digit(n % 10)]
  }

  lemma DecimalLength(n: nat)
    ensures n < 10 <==> |Decimal(n)| == 1
  {
  }

  lemma {:induction false} DecimalInjective(m: nat, n: nat)
    requires Decimal(m) == Decimal(n)
    ensures m == n
  {
    var a, b := Decimal(m), Decimal(n);
    DecimalLength(m);
    DecimalLength(n);
    if m >= 10 {
      assert a[..|a| - 1] == Decimal(m / 10) && b[..|b| - 1] == Decimal(n / 10);
      assert a[|a| - 1] == Digit(m % 10) && b[|b| - 1] == Digit(n % 10);
      DecimalInjective(m / 10, n / 10);
    } else {
      assert a[0] == Digit(m) && b[0] == Digit(n);
    }
  }

  predicate EndsWith(s: string, end: string) {
    |end| <= |s| && s[|s| - |end|..] == end
  }

  /** The file name has the extension `json` (a name that is only `.json` has none). */
  predicate HasJsonExt(path: string) {
    EndsWith(path, ".json") && |path| > 5 && path[|path| - 6] != '/'
  }

  const SUFFIX: string := ".tmp"

  function Tag(pid: nat, n: nat): string {
    "." + Decimal(pid) + "." + Decimal(n) + SUFFIX
  }

  /** `keepJson`: a `.json` target keeps its ending after the tag. */
  function TmpPath(path: string, keepJson: bool, pid: nat, n: nat): string {
    if keepJson && HasJsonExt(path) then path[..|path| - 5] + Tag(pid, n) + ".json" else path + Tag(pid, n)
  }

  /** A name no state file has. */
  predicate IsTempName(path: string) {
    EndsWith(path, SUFFIX) || EndsWith(path, SUFFIX + ".json")
  }

  lemma TmpPathIsTemp(path: string, keepJson: bool, pid: nat, n: nat)
    ensures IsTempName(TmpPath(path, keepJson, pid, n))
  {
    var p := TmpPath(path, keepJson, pid, n);
    if keepJson && HasJsonExt(path) {
      var base := path[..|path| - 5] + ("." + Decimal(pid) + "." + Decimal(n));
      assert p == base + (SUFFIX + ".json");
    } else {
      assert p == (path + ("." + Decimal(pid) + "." + Decimal(n))) + SUFFIX;
    }
  }

  predicate NoDot(s: string) {
    forall i :: 0 <= i < |s| ==> s[i] != '.'
  }

  /** The part after the last dot of a name, and the part before it, are determined by the name. */
  lemma {:induction false} LastDot(x: string, d: string, y: string, e: string)
    requires x + "." + d == y + "." + e && NoDot(d) && NoDot(e)
    ensures x == y && d == e
    decreases |d| + |e|
  {
    var s, t := x + "." + d, y + "." + e;
    assert s[|s| - 1] == (if d == [] then '.' else d[|d| - 1]);
    assert t[|t| - 1] == (if e == [] then '.' else e[|e| - 1]);
    assert d == [] <==> e == [];
    if d == [] {
      assert x == s[..|s| - 1] && y == t[..|t| - 1];
    } else {
      var d', e' := d[..|d| - 1], e[..|e| - 1];
      assert x + "." + d' == s[..|s| - 1] && y + "." + e' == t[..|t| - 1];
      LastDot(x, d', y, e');
      assert d == d' + [d[|d| - 1]] && e == e' + [e[|e| - 1]];
    }
  }

  lemma CoreDetermines(x: string, p: nat, m: nat, y: string, q: nat, n: nat)
    requires x + "." + Decimal(p) + "." + Decimal(m) == y + "." + Decimal(q) + "." + Decimal(n)
    ensures x == y && p == q && m == n
  {
    LastDot(x + "." + Decimal(p), Decimal(m), y + "." + Decimal(q), Decimal(n));
    LastDot(x, Decimal(p), y, Decimal(q));
    DecimalInjective(p, q);
    DecimalInjective(m, n);
  }

  lemma DropEnd(a: string, b: string, end: string)
    requires a + end == b + end
    ensures a == b
  {
    assert a == (a + end)[..|a + end| - |end|] == b;
  }

  function Base(path: string, keepJson: bool): string {
    if keepJson && HasJsonExt(path) then path[..|path| - 5] else path
  }

  lemma TmpPathShape(path: string, keepJson: bool, pid: nat, n: nat)
    ensures var core := Base(path, keepJson) + "." + Decimal(pid) + "." + Decimal(n);
      TmpPath(path, keepJson, pid, n) == if keepJson && HasJsonExt(path) then (core + ".tmp") + ".json" else core + ".tmp"
  {
    var base, p, m := Base(path, keepJson), Decimal(pid), Decimal(n);
    assert (base + "." + p + "." + m) + SUFFIX == base + ("." + p + "." + m + SUFFIX);
  }

  /** Two writes share a temporary name only if process and counter are the same, whatever their targets and styles. */
  lemma TmpPathsDiffer(path: string, keep: bool, pid: nat, n: nat, path': string, keep': bool, pid': nat, n': nat)
    requires TmpPath(path, keep, pid, n) == TmpPath(path', keep', pid', n')
    ensures pid == pid' && n == n'
  {
    TmpPathShape(path, keep, pid, n);
    TmpPathShape(path', keep', pid', n');
    var core := Base(path, keep) + "." + Decimal(pid) + "." + Decimal(n);
    var core' := Base(path', keep') + "." + Decimal(pid') + "." + Decimal(n');
    var name, name' := TmpPath(path, keep, pid, n), TmpPath(path', keep', pid', n');
    assert name[|name| - 1] == if keep && HasJsonExt(path) then 'n' else 'p';
    assert name'[|name'| - 1] == if keep' && HasJsonExt(path') then 'n' else 'p';
    if keep && HasJsonExt(path) {
      DropEnd(core + ".tmp", core' + ".tmp", ".json");
    }
    DropEnd(core, core', ".tmp");
    CoreDetermines(Base(path, keep), pid, n, Base(path', keep'), pid', n');
  }

  /** The part of a path after its last slash. */
  predicate IsFileOf(dir: string, file: string) {
    (dir == [] || dir[|dir| - 1] == '/') && forall i :: 0 <= i < |file| ==> file[i] != '/'
  }

  /**
   What the temporary name of a file is: next to the target, its whole name followed by the tag; in the style that keeps the ending, a name
   that has something before `.json` gets the tag between the two.
   */
  lemma TmpPathIsSibling(dir: string, file: string, pid: nat, n: nat)
    requires IsFileOf(dir, file)
    ensures var tag := "." + Decimal(pid) + "." + Decimal(n) + ".tmp";
      && TmpPath(dir + file, false, pid, n) == dir + file + tag
      && (TmpPath(dir + file + ".json", true, pid, n) == if file == [] then dir + ".json" + tag else dir + file + tag + ".json")
      && (!EndsWith(file, ".json") ==> TmpPath(dir + file, true, pid, n) == dir + file + tag)
  {
    var path := dir + file + ".json";
    assert path[|path| - 5..] == ".json";
    assert path[..|path| - 5] == dir + file;
    if file == [] {
      assert dir + file + ".json" == dir + ".json";
      if |path| > 5 {
        assert path[|path| - 6] == dir[|dir| - 1];
      }
    } else {
      assert path[|path| - 6] == file[|file| - 1];
    }
    if HasJsonExt(dir + file) {
      EndingOfFile(dir, file);
    }
  }

  lemma EndingOfFile(dir: string, file: string)
    requires IsFileOf(dir, file) && HasJsonExt(dir + file)
    ensures EndsWith(file, ".json")
  {
    var path := dir + file;
    var end := path[|path| - 5..];
    assert end == ".json";
    assert forall i :: |path| - 5 <= i < |path| ==> path[i] == end[i - (|path| - 5)] && path[i] != '/';
    assert dir != [] ==> path[|dir| - 1] == '/';
    assert file == path[|dir|..];
  }

  /** The decimal of a number reads back as it: its digits are those of base ten, the highest first. */
  function Number(s: string): int {
    if s == [] then 0 else 10 * Number(s[..|s| - 1]) + (s[|s| - 1] as int - '0' as int)
  }

  lemma {:induction false} DecimalIsRead(n: nat)
    ensures Number(Decimal(n)) == n
    ensures forall i :: 0 <= i < |Decimal(n)| ==> '0' <= Decimal(n)[i] <= '9'
    ensures n > 0 ==> Decimal(n)[0] != '0'
  {
    var s := Decimal(n);
    if n >= 10 {
      DecimalIsRead(n / 10);
      assert s[..|s| - 1] == Decimal(n / 10);
    } else {
      assert s[..0] == [];
    }
  }
}
