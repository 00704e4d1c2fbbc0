/** Well-written numbers by their parts, and that the reader takes just these. */
module JsNumbers {
  import opened Prelude
  import opened JsLiteral

  datatype Exponent = Exponent(mark: char, sign: string, digits: string)

  /** A sign, a whole part, what follows the point and what follows the `e`. */
  datatype NumberForm = NumberForm(minus: bool, whole: string, fraction: Option<string>, exponent: Option<Exponent>)

  predicate Decimal(c: char) {
    0x30 <= c as int <= 0x39
  }

  predicate Digits(t: string) {
    t != "" && forall k :: 0 <= k < |t| ==> Decimal(t[k])
  }

  /** Digits among which underscores may stand. */
  predicate Grouped(t: string) {
    forall k :: 0 <= k < |t| ==> Decimal(t[k]) || t[k] == '_'
  }

  predicate GoodWhole(t: string) {
    t == "0" || (t != "" && Decimal(t[0]) && t[0] != '0' && Grouped(t))
  }

  predicate GoodFraction(f: Option<string>) {
    f.Some? ==> f.value != "" && Grouped(f.value)
  }

  predicate GoodExponent(e: Option<Exponent>) {
    e.Some? ==> e.value.mark in {'e', 'E'} && e.value.sign in {"", "+", "-"} && Digits(e.value.digits)
  }

  predicate GoodNumber(n: NumberForm) {
    GoodWhole(n.whole) && GoodFraction(n.fraction) && GoodExponent(n.exponent)
  }

  function SignText(minus: bool): string {
    if minus then "-" else ""
  }

  function FractionText(f: Option<string>): string {
    if f.Some? then "." + f.value else ""
  }

  function ExponentText(e: Option<Exponent>): string {
    if e.Some? then [e.value.mark] + e.value.sign + e.value.digits else ""
  }

  function NumberText(n: NumberForm): string {
    SignText(n.minus) + n.whole + FractionText(n.fraction) + ExponentText(n.exponent)
  }

  /** The digits of a group. */
  function DigitsOf(t: string): string {
    if t == "" then "" else DigitsOf(t[..|t| - 1]) + (if Decimal(t[|t| - 1]) then [t[|t| - 1]] else "")
  }

  /** The number written without groups: its sign, the digits of its whole part and of its fraction, and its exponent. */
  function PlainText(n: NumberForm): string {
    SignText(n.minus) + DigitsOf(n.whole) + (if n.fraction.Some? then "." + DigitsOf(n.fraction.value) else "") + ExponentText(n.exponent)
  }

  lemma {:induction false} WithoutAppend(a: string, b: string)
    ensures WithoutUnderscores(a + b) == WithoutUnderscores(a) + WithoutUnderscores(b)
  {
    if a == "" {
      assert a + b == b;
    } else {
      assert (a + b)[1..] == a[1..] + b;
      WithoutAppend(a[1..], b);
    }
  }

  lemma {:induction false} WithoutNone(t: string)
    requires forall k :: 0 <= k < |t| ==> t[k] != '_'
    ensures WithoutUnderscores(t) == t
  {
    if t != "" {
      WithoutNone(t[1..]);
      assert t == [t[0]] + t[1..];
    }
  }

  lemma {:induction false} GroupWithout(t: string)
    requires Grouped(t)
    ensures WithoutUnderscores(t) == DigitsOf(t)
  {
    if t != "" {
      var n := |t| - 1;
      GroupWithout(t[..n]);
      assert t == t[..n] + [t[n]];
      WithoutAppend(t[..n], [t[n]]);
      assert [t[n]][1..] == "";
    }
  }

  /** A well-written number without its underscores is the number written without groups. */
  lemma NumberWithout(n: NumberForm)
    requires GoodNumber(n)
    ensures WithoutUnderscores(NumberText(n)) == PlainText(n)
  {
    var sign, frac, exp := SignText(n.minus), FractionText(n.fraction), ExponentText(n.exponent);
    WithoutAppend(sign + n.whole + frac, exp);
    WithoutAppend(sign + n.whole, frac);
    WithoutAppend(sign, n.whole);
    WithoutNone(sign);
    ExponentWithout(n.exponent);
    GroupWithout(n.whole);
    if n.fraction.Some? {
      GroupWithout(n.fraction.value);
      WithoutAppend(".", n.fraction.value);
      WithoutNone(".");
    }
  }

  lemma ExponentWithout(e: Option<Exponent>)
    requires GoodExponent(e)
    ensures WithoutUnderscores(ExponentText(e)) == ExponentText(e)
  {
    if e.Some? {
      var t := ExponentText(e);
      var d := 1 + |e.value.sign|;
      assert forall k :: d <= k < |t| ==> t[k] == e.value.digits[k - d];
      assert t[0] == e.value.mark && (e.value.sign != "" ==> t[1] == e.value.sign[0]);
      WithoutNone(t);
    }
  }

  /** The run of digits from `i` on is the longest one. */
  lemma {:induction false} DigitsRun(s: string, i: nat, e: nat, underscores: bool)
    requires i <= e <= |s|
    ensures DigitsEnd(s, i, underscores) == e <==>
      && (forall k :: i <= k < e ==> Digit(s[k]) || (underscores && s[k] == '_'))
      && (e < |s| ==> !Digit(s[e]) && !(underscores && s[e] == '_'))
    decreases e - i
  {
    if i < e {
      if Digit(s[i]) || (underscores && s[i] == '_') {
        DigitsRun(s, i + 1, e, underscores);
      }
    }
  }

  lemma DigitsEndRuns(s: string, i: nat, underscores: bool)
    requires i <= |s|
    ensures var e := DigitsEnd(s, i, underscores);
      && (forall k :: i <= k < e ==> Digit(s[k]) || (underscores && s[k] == '_'))
      && (e < |s| ==> !Digit(s[e]) && !(underscores && s[e] == '_'))
  {
    DigitsRun(s, i, DigitsEnd(s, i, underscores), underscores);
  }

  // ---- what is well written is read to its end

  lemma WholeIsPassed(n: NumberForm)
    requires GoodNumber(n)
    ensures var t := NumberText(n);
      && (Is(t, 0, '-') <==> n.minus)
      && WholeEnd(t, |SignText(n.minus)|) == Some(|SignText(n.minus)| + |n.whole|)
  {
    var t, i := NumberText(n), |SignText(n.minus)|;
    var e := i + |n.whole|;
    assert forall k :: i <= k < e ==> t[k] == n.whole[k - i];
    assert e < |t| ==> t[e] == (if n.fraction.Some? then '.' else n.exponent.value.mark);
    if n.whole != "0" {
      DigitsRun(t, i, e, true);
    }
  }

  lemma FractionIsPassed(n: NumberForm)
    requires GoodNumber(n)
    ensures FractionEnd(NumberText(n), |SignText(n.minus)| + |n.whole|) == |SignText(n.minus)| + |n.whole| + |FractionText(n.fraction)|
  {
    var t, i := NumberText(n), |SignText(n.minus)| + |n.whole|;
    var e := i + |FractionText(n.fraction)|;
    assert forall k :: i <= k < e ==> t[k] == FractionText(n.fraction)[k - i];
    assert e < |t| ==> t[e] == n.exponent.value.mark;
    if n.fraction.Some? {
      DigitsRun(t, i + 1, e, true);
    }
  }

  lemma ExponentIsPassed(n: NumberForm)
    requires GoodNumber(n)
    ensures ExponentEnd(NumberText(n), |NumberText(n)| - |ExponentText(n.exponent)|) == |NumberText(n)|
  {
    var t := NumberText(n);
    var i := |t| - |ExponentText(n.exponent)|;
    assert forall k :: i <= k < |t| ==> t[k] == ExponentText(n.exponent)[k - i];
    if n.exponent.Some? {
      var d := i + 1 + |n.exponent.value.sign|;
      assert forall k :: d <= k < |t| ==> t[k] == n.exponent.value.digits[k - d];
      assert n.exponent.value.sign != "" ==> t[i + 1] == n.exponent.value.sign[0];
      DigitsRun(t, d, |t|, false);
    }
  }

  lemma NumberIsPassed(n: NumberForm)
    requires GoodNumber(n)
    ensures NumberEnd(NumberText(n), 0) == Some(|NumberText(n)|)
  {
    WholeIsPassed(n);
    FractionIsPassed(n);
    ExponentIsPassed(n);
  }

  // ---- and nothing else is

  function FractionOf(t: string, w: nat): Option<string>
    requires w <= |t|
  {
    if FractionEnd(t, w) > w then Some(t[w + 1..FractionEnd(t, w)]) else None
  }

  function ExponentOf(t: string, f: nat): Option<Exponent>
    requires f <= |t| && ExponentEnd(t, f) == |t|
  {
    if f == |t| then None
    else if Is(t, f + 1, '+') || Is(t, f + 1, '-') then Some(Exponent(t[f], [t[f + 1]], t[f + 2..]))
    else Some(Exponent(t[f], "", t[f + 1..]))
  }

  lemma WholePart(t: string, i: nat)
    requires i <= |t| && WholeEnd(t, i).Some?
    ensures GoodWhole(t[i..WholeEnd(t, i).value])
  {
    DigitsEndRuns(t, i, true);
    if t[i] != '0' {
      DigitsRun(t, i, DigitsEnd(t, i + 1, true), true);
    }
  }

  lemma FractionPart(t: string, w: nat)
    requires w <= |t|
    ensures GoodFraction(FractionOf(t, w)) && FractionText(FractionOf(t, w)) == t[w..FractionEnd(t, w)]
  {
    if FractionEnd(t, w) > w {
      DigitsEndRuns(t, w + 1, true);
    }
  }

  lemma ExponentPart(t: string, f: nat)
    requires f <= |t| && ExponentEnd(t, f) == |t|
    ensures GoodExponent(ExponentOf(t, f)) && ExponentText(ExponentOf(t, f)) == t[f..]
  {
    if f < |t| {
      var d := if Is(t, f + 1, '+') || Is(t, f + 1, '-') then f + 2 else f + 1;
      DigitsEndRuns(t, d, false);
      if d == f + 2 {
        assert [t[f]] + [t[f + 1]] + t[d..] == t[f..];
      } else {
        assert [t[f]] + "" + t[d..] == t[f..];
      }
    }
  }

  function Parts(t: string): NumberForm
    requires NumberEnd(t, 0) == Some(|t|)
  {
    var i := if Is(t, 0, '-') then 1 else 0;
    var w := WholeEnd(t, i).value;
    NumberForm(i == 1, t[i..w], FractionOf(t, w), ExponentOf(t, FractionEnd(t, w)))
  }

  lemma PartsAreGood(t: string)
    requires NumberEnd(t, 0) == Some(|t|)
    ensures GoodNumber(Parts(t)) && NumberText(Parts(t)) == t
  {
    var i := if Is(t, 0, '-') then 1 else 0;
    var w := WholeEnd(t, i).value;
    var f := FractionEnd(t, w);
    hide WholeEnd, FractionEnd, ExponentEnd, GoodWhole, GoodFraction, GoodExponent, FractionOf, ExponentOf, FractionText, ExponentText;
    WholePart(t, i);
    FractionPart(t, w);
    ExponentPart(t, f);
    CutInFour(t, i, w, f);
    assert SignText(i == 1) == t[..i];
  }

  lemma CutInFour(t: string, i: nat, w: nat, f: nat)
    requires i <= w <= f <= |t|
    ensures t[..i] + t[i..w] + t[w..f] + t[f..] == t
  {
  }

  /** A text is a number to its end if and only if it is made of well-written parts. */
  lemma NumbersExactly(t: string)
    ensures NumberEnd(t, 0) == Some(|t|) <==> exists n :: GoodNumber(n) && NumberText(n) == t
  {
    if NumberEnd(t, 0) == Some(|t|) {
      PartsAreGood(t);
    }
    if n :| GoodNumber(n) && NumberText(n) == t {
      NumberIsPassed(n);
    }
  }

  lemma {:induction false} AllPartsEnd(s: string, i: nat)
    requires i <= |s| && forall k :: i <= k < |s| ==> IdentPart(s[k])
    ensures IdentEnd(s, i) == |s|
    decreases |s| - i
  {
    if i < |s| {
      AllPartsEnd(s, i + 1);
    }
  }
}
