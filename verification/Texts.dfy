/** Texts that stand in place within a longer one. */
module Texts {

  /** `s` stands at `i` in `f`. */
  predicate Here(f: string, i: nat, s: string) {
    i + |s| <= |f| && f[i..i + |s|] == s
  }

  lemma HereSplit(f: string, i: nat, a: string, b: string)
    requires Here(f, i, a + b)
    ensures Here(f, i, a) && Here(f, i + |a|, b)
  {
    assert f[i..i + |a|] == (a + b)[..|a|];
    assert f[i + |a|..i + |a| + |b|] == (a + b)[|a|..];
  }

  lemma HereChar(f: string, i: nat, s: string, k: nat)
    requires Here(f, i, s) && k < |s|
    ensures f[i + k] == s[k]
  {
    assert f[i..i + |s|][k] == s[k];
  }

  lemma ThreeParts(f: string, i: nat, a: string, c: char, b: string)
    requires Here(f, i, a + ([c] + b))
    ensures Here(f, i, a) && f[i + |a|] == c && Here(f, i + |a| + 1, b)
  {
    HereSplit(f, i, a, [c] + b);
    HereSplit(f, i + |a|, [c], b);
    HereChar(f, i + |a|, [c], 0);
  }

  lemma Regroup(a: string, b: string, c: string)
    ensures (a + b) + c == a + (b + c)
  {
  }
}
