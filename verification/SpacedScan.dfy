/** The scan of a cut payload written with any white space: exactly which event fields it finds. */
module SpacedScan {
  import opened Prelude
  import opened EventScan
  import opened ScanLaws
  import opened Texts

  // ---- payloads as written

  /** A piece of a value: a string literal, a bracket, or any other character: a comma, a colon, white space, part of a number or word. */
  datatype Token = Literal(s: string) | Open(c: char) | Shut(c: char) | Mark(c: char)

  function TokenText(x: Token): string {
    match x
    case Literal(s) => Quote(s)
    case Open(c) => [c]
    case Shut(c) => [c]
    case Mark(c) => [c]
  }

  function TokensText(ts: seq<Token>): string {
    if ts == [] then "" else TokenText(ts[0]) + TokensText(ts[1..])
  }

  /** The depth of brackets after the pieces; none when a bracket shuts that was not open, or a comma stands outside all of them. */
  function Depth(ts: seq<Token>, d: nat): Option<nat> {
    if ts == [] then Some(d)
    else match ts[0]
      case Literal(_) => Depth(ts[1..], d)
      case Open(c) => if c == '{' || c == '[' then Depth(ts[1..], d + 1) else None
      case Shut(c) => if (c == '}' || c == ']') && d > 0 then Depth(ts[1..], d - 1) else None
      case Mark(c) => if ScanLaws.Plain(c, d) then Depth(ts[1..], d) else None
  }

  /** A string, or any other value: its pieces, the first of them no white space. */
  datatype Written = Text(s: string) | Other(ts: seq<Token>)

  predicate GoodValue(v: Written) {
    v.Other? ==>
      && v.ts != [] && !v.ts[0].Literal? && (v.ts[0].Mark? ==> !IsSpace(v.ts[0].c))
      && Depth(v.ts, 0) == Some(0)
  }

  function Pieces(v: Written): seq<Token> {
    if v.Text? then [Literal(v.s)] else v.ts
  }

  predicate Spaces(g: string) {
    forall i :: 0 <= i < |g| ==> g[i] as int in {32, 9, 10, 12, 13}
  }

  /** A field with the white space before its key, around its colon and after its value. */
  datatype Field = Field(before: string, key: string, afterKey: string, beforeValue: string, value: Written, after: string)

  predicate GoodField(x: Field) {
    Spaces(x.before) && Spaces(x.afterKey) && Spaces(x.beforeValue) && Spaces(x.after) && GoodValue(x.value)
  }

  predicate GoodFields(fields: seq<Field>) {
    forall x :: x in fields ==> GoodField(x)
  }

  function KeyText(x: Field): string {
    x.before + (Quote(x.key) + x.afterKey)
  }

  function ValueText(x: Field): string {
    TokensText(Pieces(x.value))
  }

  /** Up to the end of the value. */
  function FieldText(x: Field): string {
    KeyText(x) + ([':'] + (x.beforeValue + ValueText(x)))
  }

  /** What stands in the payload from some last fields on; `last` is the white space of an object that has none. */
  function Rest(fields: seq<Field>, last: string): string {
    if fields == [] then last + "}"
    else FieldText(fields[0]) + (fields[0].after + (if |fields| == 1 then "}" else [','] + Rest(fields[1..], last)))
  }

  /**
   The event fields found in the first `n` characters: those whose value is a complete string, up to an event field whose value is no
   string, or one whose value is followed by white space before a comma.
   */
  function Seen(fields: seq<Field>, start: nat, n: nat, keys: seq<string>): Found {
    if fields == [] then [] else
      var x := fields[0];
      var end := start + |FieldText(x)|;
      if x.key !in keys then Seen(fields[1..], end + |x.after| + 1, n, keys)
      else if x.value.Text? && end <= n then
        [(x.key, x.value.s)] + (if x.after == "" then Seen(fields[1..], end + 1, n, keys) else [])
      else []
  }

  // ---- white space

  /** White space is skipped up to what follows it, or up to the cut. */
  lemma {:induction false} GapSkipped(f: string, n: nat, i: nat, g: string)
    requires i <= n <= |f| && Here(f, i, g) && Spaces(g)
    requires i + |g| < |f| ==> !IsSpace(f[i + |g|])
    ensures SkipSpace(f[..n], i) == Min(i + |g|, n)
    decreases |g|
  {
    if g == "" || i == n {
      NoSpace(f[..n], i);
    } else {
      HereChar(f, i, g, 0);
      assert g == [g[0]] + g[1..];
      HereSplit(f, i, [g[0]], g[1..]);
      GapSkipped(f, n, i + 1, g[1..]);
    }
  }

  lemma GapPassed(f: string, n: nat, i: nat, g: string)
    requires n <= |f| && Here(f, i, g) && Spaces(g)
    ensures Passes(f, n, i, g, 0, 0)
  {
    SkipPlain(f, n, i, 0, g);
  }

  // ---- values

  lemma TokenPassed(f: string, n: nat, i: nat, x: Token, d: nat)
    requires n <= |f| && Here(f, i, TokenText(x)) && Depth([x], d).Some?
    ensures Passes(f, n, i, TokenText(x), d, Depth([x], d).value)
  {
    match x
    case Literal(s) => SkipQuote(f, n, i, d, s);
    case Open(c) => SkipOpen(f, n, i, d, c);
    case Shut(c) => SkipShut(f, n, i, d - 1, c);
    case Mark(c) => SkipPlain(f, n, i, d, [c]);
  }

  lemma DepthFirst(ts: seq<Token>, d: nat)
    requires ts != [] && Depth(ts, d).Some?
    ensures Depth([ts[0]], d).Some? && Depth(ts[1..], Depth([ts[0]], d).value) == Depth(ts, d)
  {
    assert [ts[0]][1..] == [];
  }

  lemma {:induction false} TokensPassed(f: string, n: nat, i: nat, ts: seq<Token>, d: nat)
    requires n <= |f| && Here(f, i, TokensText(ts)) && Depth(ts, d).Some?
    ensures Passes(f, n, i, TokensText(ts), d, Depth(ts, d).value)
    decreases |ts|
  {
    hide SkipFrom, Here, Quote;
    if ts == [] {
      SkipNothing(f, n, i, d);
    } else {
      var head, rest := TokenText(ts[0]), TokensText(ts[1..]);
      DepthFirst(ts, d);
      var mid := Depth([ts[0]], d).value;
      HereSplit(f, i, head, rest);
      TokenPassed(f, n, i, ts[0], d);
      TokensPassed(f, n, i + |head|, ts[1..], mid);
      PassesThen(f, n, i, head, rest, d, mid, Depth(ts, d).value);
    }
  }

  lemma ValueBegins(v: Written)
    requires GoodValue(v)
    ensures var t := TokensText(Pieces(v)); t != "" && !IsSpace(t[0]) && (t[0] == '"' <==> v.Text?)
    ensures v.Text? ==> TokensText(Pieces(v)) == Quote(v.s)
    ensures Depth(Pieces(v), 0) == Some(0)
  {
    if v.Text? {
      assert [Literal(v.s)][1..] == [];
      assert Quote(v.s) + "" == Quote(v.s);
    } else {
      DepthFirst(v.ts, 0);
    }
  }

  /** A value and the white space after it, before the comma or the brace that ends the field. */
  lemma ValuePassed(f: string, n: nat, i: nat, v: Written, g: string)
    requires n <= |f| && GoodValue(v) && Spaces(g)
    requires Here(f, i, TokensText(Pieces(v))) && Here(f, i + |TokensText(Pieces(v))|, g)
    requires Ends(f, i + |TokensText(Pieces(v))| + |g|)
    ensures var e := i + |TokensText(Pieces(v))| + |g|; SkipFrom(f[..n], i, 0) == if e < n then Some(e) else None
  {
    ValueBegins(v);
    TokensPassed(f, n, i, Pieces(v), 0);
    GapPassed(f, n, i + |TokensText(Pieces(v))|, g);
  }

  // ---- one field

  /** The step over a field whose value ends at `e`, the text cut at `n`. */
  function SeenStep(x: Field, e: nat, n: nat, f: string, keys: seq<string>): FieldStep
    requires Ends(f, e + |x.after|)
  {
    var end := e + |x.after|;
    if x.key in keys then
      if x.value.Text? && e <= n then Go(if x.after == "" && e < n && f[e] == ',' then e + 1 else e, [(x.key, x.value.s)]) else Stop
    else if end < n then Go(if f[end] == ',' then end + 1 else end, []) else Stop
  }

  /** The field's places: its key at `k`, its colon at `c`, its value at `v`, which ends at `e`. */
  predicate Stands(f: string, i: nat, x: Field, k: nat, c: nat, v: nat, e: nat) {
    && k == i + |x.before| && c == k + |Quote(x.key)| + |x.afterKey| && v == c + 1 + |x.beforeValue| && e == v + |ValueText(x)|
    && Here(f, i, x.before) && Here(f, k, Quote(x.key)) && Here(f, k + |Quote(x.key)|, x.afterKey)
    && c < |f| && f[c] == ':' && Here(f, c + 1, x.beforeValue) && Here(f, v, ValueText(x)) && Here(f, e, x.after)
    && Ends(f, e + |x.after|)
  }

  lemma StepFromColon(t: string, from: nat, keyEnd: nat, key: string, at: nat, keys: seq<string>)
    requires from <= |t| && var i := SkipSpace(t, from); StringEnd(t, i) == Some(keyEnd) && Decode(t[i..keyEnd]) == Some(key)
    requires At(t, SkipSpace(t, keyEnd)) == Some(':') && SkipSpace(t, SkipSpace(t, keyEnd) + 1) == at
    ensures StepAt(t, from, keys) == ValueStep(t, at, key, keys)
  {
  }

  lemma StepCutEarly(t: string, from: nat, keys: seq<string>)
    requires from <= |t|
    requires var i := SkipSpace(t, from);
      StringEnd(t, i) == None || (StringEnd(t, i).Some? && SkipSpace(t, StringEnd(t, i).value) == |t|)
    ensures StepAt(t, from, keys) == Stop
  {
  }

  lemma AfterIsEnd(f: string, e: nat, g: string)
    requires Here(f, e, g) && Spaces(g) && Ends(f, e + |g|)
    ensures e < |f| && (g == "" ==> Ends(f, e)) && (g != "" ==> IsSpace(f[e]))
  {
    if g != "" {
      HereChar(f, e, g, 0);
    }
  }

  lemma ValueIsSeen(f: string, n: nat, x: Field, v: nat, keys: seq<string>)
    requires n <= |f| && GoodField(x) && Here(f, v, ValueText(x)) && Here(f, v + |ValueText(x)|, x.after)
    requires Ends(f, v + |ValueText(x)| + |x.after|)
    ensures ValueStep(f[..n], Min(v, n), x.key, keys) == SeenStep(x, v + |ValueText(x)|, n, f, keys)
  {
    hide Escape, SkipFrom, Decode, Quote, TokensText, StringEnd, IsSpace;
    ValueBegins(x.value);
    if x.key in keys {
      EventValueIsSeen(f, n, x, v, keys);
    } else if n <= v {
      CutBefore(f, n);
    } else {
      ValuePassed(f, n, v, x.value, x.after);
    }
  }

  lemma EventValueIsSeen(f: string, n: nat, x: Field, v: nat, keys: seq<string>)
    requires n <= |f| && GoodField(x) && Here(f, v, ValueText(x)) && Here(f, v + |ValueText(x)|, x.after)
    requires Ends(f, v + |ValueText(x)| + |x.after|) && x.key in keys
    ensures ValueStep(f[..n], Min(v, n), x.key, keys) == SeenStep(x, v + |ValueText(x)|, n, f, keys)
  {
    hide Escape, SkipFrom, Decode, Quote, TokensText;
    ValueBegins(x.value);
    HereChar(f, v, ValueText(x), 0);
    AfterIsEnd(f, v + |ValueText(x)|, x.after);
    if n > v && x.value.Text? {
      QuoteRead(f, n, v, x.value.s);
    }
  }

  lemma CutBefore(f: string, n: nat)
    requires n <= |f|
    ensures SkipFrom(f[..n], n, 0) == None
  {
  }

  /** The places the step over a field reads, cut at `n`. */
  lemma PlacesRead(f: string, n: nat, i: nat, x: Field, k: nat, c: nat, v: nat, e: nat)
    requires i <= n <= |f| && GoodField(x) && Stands(f, i, x, k, c, v, e)
    ensures SkipSpace(f[..n], i) == Min(k, n)
    ensures k + |Quote(x.key)| <= n ==> SkipSpace(f[..n], k + |Quote(x.key)|) == Min(c, n)
    ensures c < n ==> SkipSpace(f[..n], c + 1) == Min(v, n)
  {
    hide SkipSpace, Quote, TokensText;
    QuoteRead(f, n, k, x.key);
    ValueBegins(x.value);
    HereChar(f, v, ValueText(x), 0);
    GapSkipped(f, n, i, x.before);
    if k + |Quote(x.key)| <= n {
      GapSkipped(f, n, k + |Quote(x.key)|, x.afterKey);
    }
    if c < n {
      GapSkipped(f, n, c + 1, x.beforeValue);
    }
  }

  lemma StepIsSeen(f: string, n: nat, i: nat, x: Field, k: nat, c: nat, v: nat, e: nat, keys: seq<string>)
    requires i <= n <= |f| && GoodField(x) && Stands(f, i, x, k, c, v, e)
    ensures StepAt(f[..n], i, keys) == SeenStep(x, e, n, f, keys)
  {
    hide SkipSpace, Quote, TokensText, StepAt, Decode, GoodField, ValueStep;
    var t := f[..n];
    QuoteRead(f, n, k, x.key);
    PlacesRead(f, n, i, x, k, c, v, e);
    if c < n {
      ValueIsSeen(f, n, x, v, keys);
      StepFromColon(t, i, k + |Quote(x.key)|, x.key, Min(v, n), keys);
    } else {
      QuoteIsLong(x.key);
      CutInPlaces(t, i, k, k + |Quote(x.key)|, keys);
    }
  }

  lemma QuoteIsLong(s: string)
    ensures |Quote(s)| >= 2
  {
  }

  lemma CutInPlaces(t: string, i: nat, k: nat, q: nat, keys: seq<string>)
    requires i <= |t| && SkipSpace(t, i) == Min(k, |t|) && k < q
    requires q > |t| ==> StringEnd(t, k) == None
    requires q <= |t| ==> StringEnd(t, k) == Some(q) && SkipSpace(t, q) == |t|
    ensures StepAt(t, i, keys) == Stop
  {
    hide SkipSpace, StepAt;
    StepCutEarly(t, i, keys);
  }

  // ---- the scan

  lemma FieldStands(f: string, i: nat, fields: seq<Field>, last: string)
    requires fields != [] && GoodField(fields[0]) && Here(f, i, Rest(fields, last))
    ensures var x := fields[0];
      var k := i + |x.before|;
      var c := k + |Quote(x.key)| + |x.afterKey|;
      var v := c + 1 + |x.beforeValue|;
      var e := i + |FieldText(x)|;
      && Stands(f, i, x, k, c, v, e)
      && (|fields| == 1 ==> f[e + |x.after|] == '}')
      && (|fields| > 1 ==> f[e + |x.after|] == ',' && Here(f, e + |x.after| + 1, Rest(fields[1..], last)))
  {
    hide Here, Quote, FieldText, ValueText, Ends;
    var x := fields[0];
    PartsAndTail(f, i, fields, last);
    PartsStand(f, i, x);
    AtEnd(f, i + |FieldText(x)| + |x.after|);
  }

  lemma AtEnd(f: string, e: nat)
    ensures Ends(f, e) <==> e < |f| && (f[e] == ',' || f[e] == '}')
  {
  }

  function AfterFirst(fields: seq<Field>, last: string): string
    requires fields != []
  {
    if |fields| == 1 then "}" else [','] + Rest(fields[1..], last)
  }

  lemma AfterShape(fields: seq<Field>, last: string)
    requires fields != []
    ensures |fields| == 1 ==> AfterFirst(fields, last) == ['}']
    ensures |fields| > 1 ==> AfterFirst(fields, last) == [','] + Rest(fields[1..], last)
  {
  }

  lemma RestShape(fields: seq<Field>, last: string)
    requires fields != []
    ensures Rest(fields, last) == FieldText(fields[0]) + (fields[0].after + AfterFirst(fields, last))
  {
    hide FieldText;
  }

  lemma PartsAndTail(f: string, i: nat, fields: seq<Field>, last: string)
    requires fields != [] && Here(f, i, Rest(fields, last))
    ensures var x := fields[0];
      var e := i + |FieldText(x)|;
      && Here(f, i, FieldText(x)) && Here(f, e, x.after) && e + |x.after| < |f|
      && (|fields| == 1 ==> f[e + |x.after|] == '}')
      && (|fields| > 1 ==> f[e + |x.after|] == ',' && Here(f, e + |x.after| + 1, Rest(fields[1..], last)))
  {
    hide *;
    RestShape(fields, last);
    AfterShape(fields, last);
    var end := i + |FieldText(fields[0])| + |fields[0].after|;
    TailStands(f, i, FieldText(fields[0]), fields[0].after, AfterFirst(fields, last));
    if |fields| > 1 {
      HereSplit(f, end, [','], Rest(fields[1..], last));
    }
  }

  lemma TailStands(f: string, i: nat, a: string, b: string, c: string)
    requires Here(f, i, a + (b + c)) && c != ""
    ensures Here(f, i, a) && Here(f, i + |a|, b) && Here(f, i + |a| + |b|, c)
    ensures i + |a| + |b| < |f| && f[i + |a| + |b|] == c[0]
  {
    HereSplit(f, i, a, b + c);
    HereSplit(f, i + |a|, b, c);
    HereChar(f, i + |a| + |b|, c, 0);
  }

  lemma PartsStand(f: string, i: nat, x: Field)
    requires Here(f, i, FieldText(x))
    ensures var k := i + |x.before|;
      var c := k + |Quote(x.key)| + |x.afterKey|;
      && Here(f, i, x.before) && Here(f, k, Quote(x.key)) && Here(f, k + |Quote(x.key)|, x.afterKey)
      && c < |f| && f[c] == ':' && Here(f, c + 1, x.beforeValue) && Here(f, c + 1 + |x.beforeValue|, ValueText(x))
      && i + |FieldText(x)| == c + 1 + |x.beforeValue| + |ValueText(x)|
  {
    hide Quote, TokensText, ValueText;
    var c := i + |KeyText(x)|;
    HereSplit(f, i, KeyText(x), [':'] + (x.beforeValue + ValueText(x)));
    HereSplit(f, i, x.before, Quote(x.key) + x.afterKey);
    HereSplit(f, i + |x.before|, Quote(x.key), x.afterKey);
    HereSplit(f, c, [':'], x.beforeValue + ValueText(x));
    HereChar(f, c, [':'], 0);
    HereSplit(f, c + 1, x.beforeValue, ValueText(x));
  }

  lemma {:induction false} NothingSeenPastCut(fields: seq<Field>, start: nat, n: nat, keys: seq<string>)
    requires start > n
    ensures Seen(fields, start, n, keys) == []
  {
    if fields != [] {
      NothingSeenPastCut(fields[1..], start + |FieldText(fields[0])| + |fields[0].after| + 1, n, keys);
    }
  }

  /** White space and then the end of the text, a brace or a comma: nothing more is found. */
  lemma ScanEnds(f: string, n: nat, i: nat, g: string, keys: seq<string>, found: Found)
    requires i <= n <= |f| && Here(f, i, g) && Spaces(g) && Ends(f, i + |g|)
    ensures Scan(f[..n], i, keys, found) == found
  {
    GapSkipped(f, n, i, g);
    hide SkipSpace;
    if i + |g| < n {
      assert f[..n][i + |g|] == f[i + |g|];
    }
  }

  lemma {:induction false} ScanIsSeen(f: string, n: nat, i: nat, fields: seq<Field>, last: string, keys: seq<string>, found: Found)
    requires i <= n <= |f| && GoodFields(fields) && Spaces(last) && Here(f, i, Rest(fields, last))
    ensures Scan(f[..n], i, keys, found) == found + Seen(fields, i, n, keys)
    decreases |fields|
  {
    hide Quote, TokensText, StepAt, Scan, FieldText, Stands, Here, GoodField;
    if fields == [] {
      HereSplit(f, i, last, "}");
      HereChar(f, i + |last|, "}", 0);
      ScanEnds(f, n, i, last, keys, found);
      assert found + [] == found;
    } else {
      var x := fields[0];
      assert x in fields;
      FieldStands(f, i, fields, last);
      var k := i + |x.before|;
      var c := k + |Quote(x.key)| + |x.afterKey|;
      StepIsSeen(f, n, i, x, k, c, c + 1 + |x.beforeValue|, i + |FieldText(x)|, keys);
      StandsEnds(f, i, x, k, c, c + 1 + |x.beforeValue|, i + |FieldText(x)|);
      GoOnSeeing(f, n, i, fields, last, keys, found);
    }
  }

  lemma StandsEnds(f: string, i: nat, x: Field, k: nat, c: nat, v: nat, e: nat)
    requires Stands(f, i, x, k, c, v, e)
    ensures Here(f, e, x.after) && Ends(f, e + |x.after|) && i < e
  {
  }

  lemma {:induction false} ScanStep(t: string, i: nat, keys: seq<string>, found: Found)
    requires i <= |t|
    ensures Scan(t, i, keys, found) ==
      match StepAt(t, i, keys) case Stop => found case Go(next, pair) => Scan(t, next, keys, found + pair)
  {
  }

  /** From the step over the first field on. */
  lemma {:induction false} GoOnSeeing(f: string, n: nat, i: nat, fields: seq<Field>, last: string, keys: seq<string>, found: Found)
    requires i <= n <= |f| && fields != [] && GoodFields(fields) && Spaces(last)
    requires var x := fields[0];
      var e := i + |FieldText(x)|;
      && Here(f, e, x.after) && Ends(f, e + |x.after|)
      && (|fields| == 1 ==> f[e + |x.after|] == '}')
      && (|fields| > 1 ==> f[e + |x.after|] == ',' && Here(f, e + |x.after| + 1, Rest(fields[1..], last)))
      && StepAt(f[..n], i, keys) == SeenStep(x, e, n, f, keys)
    ensures Scan(f[..n], i, keys, found) == found + Seen(fields, i, n, keys)
    decreases |fields|, 0
  {
    hide Quote, TokensText, StepAt, Scan, FieldText, Here, Rest;
    var x := fields[0];
    var e := i + |FieldText(x)|;
    var end := e + |x.after|;
    assert GoodField(x) && GoodFields(fields[1..]);
    ScanStep(f[..n], i, keys, found);
    if end + 1 > n {
      NothingSeenPastCut(fields[1..], end + 1, n, keys);
    }
    match StepAt(f[..n], i, keys)
    case Stop => assert found + [] == found;
    case Go(next, pair) =>
      assert found + pair + [] == found + pair;
      if next == e && (x.key in keys) {
        ScanEnds(f, n, e, x.after, keys, found + pair);
      } else if next == end {
        assert Here(f, end, "") by { HereNothing(f, end); }
        ScanEnds(f, n, end, "", keys, found + pair);
      } else {
        ScanIsSeen(f, n, end + 1, fields[1..], last, keys, found + pair);
        assert found + pair + Seen(fields[1..], end + 1, n, keys) == found + (pair + Seen(fields[1..], end + 1, n, keys));
      }
  }

  lemma HereNothing(f: string, i: nat)
    requires i <= |f|
    ensures Here(f, i, "")
  {
  }

  /** A payload: white space, the opening brace, its fields with theirs, the closing brace. */
  function Payload(lead: string, fields: seq<Field>, last: string): string {
    lead + ("{" + Rest(fields, last))
  }

  /** What the scan collects of a payload with any white space, cut off anywhere after its opening brace. */
  lemma ScanOfPayload(lead: string, fields: seq<Field>, last: string, n: nat, keys: seq<string>)
    requires |lead| < n <= |Payload(lead, fields, last)| && GoodFields(fields) && Spaces(lead) && Spaces(last)
    ensures Scan(Payload(lead, fields, last)[..n], |lead| + 1, keys, []) == Seen(fields, |lead| + 1, n, keys)
    ensures SkipSpace(Payload(lead, fields, last)[..n], 0) == |lead| && Payload(lead, fields, last)[|lead|] == '{'
  {
    hide Quote, TokensText, StepAt, Scan, FieldText, Rest, SkipSpace;
    var f := Payload(lead, fields, last);
    HereWhole(f);
    HereSplit(f, 0, lead, "{" + Rest(fields, last));
    HereSplit(f, |lead|, "{", Rest(fields, last));
    HereChar(f, |lead|, "{", 0);
    GapSkipped(f, n, 0, lead);
    ScanIsSeen(f, n, |lead| + 1, fields, last, keys, []);
    assert [] + Seen(fields, |lead| + 1, n, keys) == Seen(fields, |lead| + 1, n, keys);
  }

  /**
   For a payload with any white space, cut off after any number of characters: the event is the first preferred key among the complete
   string fields, up to an event key whose value is no string or is followed by white space before a comma, and by nothing else.
   */
  lemma EventOfSpacedPayload(lead: string, fields: seq<Field>, last: string, n: nat, keys: seq<string>)
    requires n <= |Payload(lead, fields, last)| && GoodFields(fields) && Spaces(lead) && Spaces(last)
    ensures EventOfPrefix(Payload(lead, fields, last)[..n], keys)
         == if n <= |lead| then None else Best(keys, Seen(fields, |lead| + 1, n, keys))
  {
    hide Quote, TokensText, StepAt, Scan, FieldText, Rest, SkipSpace;
    if n > |lead| {
      ScanOfPayload(lead, fields, last, n, keys);
    } else {
      var f := Payload(lead, fields, last);
      HereWhole(f);
      HereSplit(f, 0, lead, "{" + Rest(fields, last));
      HereSplit(f, |lead|, "{", Rest(fields, last));
      HereChar(f, |lead|, "{", 0);
      GapSkipped(f, n, 0, lead);
    }
  }

  lemma HereWhole(f: string)
    ensures Here(f, 0, f)
  {
  }
}
