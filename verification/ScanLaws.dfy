/** What the scan finds in a payload cut off at any point: top-level string fields, and nothing nested or inside strings. */
module ScanLaws {
  import opened Prelude
  import opened EventScan
  import opened Texts

  /** A JSON value; a number keeps its text. */
  datatype Value =
    | Null
    | Bool(b: bool)
    | Num(text: string)
    | Str(s: string)
    | Arr(items: seq<Value>)
    | Obj(fields: seq<(string, Value)>)

  predicate NumChar(c: char) {
    '0' <= c <= '9' || c == '-' || c == '+' || c == '.' || c == 'e' || c == 'E'
  }

  predicate WellFormed(v: Value) {
    match v
    case Num(text) => text != [] && forall i :: 0 <= i < |text| ==> NumChar(text[i])
    case Arr(items) => forall x :: x in items ==> WellFormed(x)
    case Obj(fields) => forall f :: f in fields ==> WellFormed(f.1)
    case _ => true
  }

  // ---- the compact serialization

  function HexDigit(n: nat): (c: char)
    requires n < 16
    ensures '0' <= c <= '9' || 'a' <= c <= 'f'
  {
    if n < 10 then '0' + n as char else 'a' + (n - 10) as char
  }

  function EscapeChar(c: char): string {
    if c == '"' then "\\\""
    else if c == '\\' then "\\\\"
    else if c == '\n' then "\\n"
    else if c == '\r' then "\\r"
    else if c == '\t' then "\\t"
    else if c == 8 as char then "\\b"
    else if c == 12 as char then "\\f"
    else if c < ' ' then "\\u00" + [HexDigit((c as nat) / 16), HexDigit((c as nat) % 16)]
    else [c]
  }

  function Escape(s: string): string {
    if s == "" then "" else EscapeChar(s[0]) + Escape(s[1..])
  }

  function Quote(s: string): string {
    "\"" + Escape(s) + "\""
  }

  function Ser(v: Value): string
    decreases v, 0
  {
    match v
    case Null => "null"
    case Bool(b) => if b then "true" else "false"
    case Num(text) => text
    case Str(s) => Quote(s)
    case Arr(items) => "[" + SerItems(items) + "]"
    case Obj(fields) => "{" + SerFields(fields) + "}"
  }

  function SerItems(items: seq<Value>): string
    decreases items
  {
    if items == [] then "" else
      Ser(items[0]) + (if |items| == 1 then "" else "," + SerItems(items[1..]))
  }

  function SerField(k: string, v: Value): string
    decreases v, 1
  {
    Quote(k) + ":" + Ser(v)
  }

  function SerFields(fields: seq<(string, Value)>): string
    decreases fields
  {
    if fields == [] then "" else
      assert fields[0].1 < fields[0];
      SerField(fields[0].0, fields[0].1) + (if |fields| == 1 then "" else "," + SerFields(fields[1..]))
  }

  function Document(fields: seq<(string, Value)>): string {
    "{" + SerFields(fields) + "}"
  }

  // ---- what a cut text should give

  /** The complete event fields of the first `n` characters, the first field starting at `start`; a non-string event field ends them. */
  function Complete(fields: seq<(string, Value)>, start: nat, n: nat, keys: seq<string>): Found {
    if fields == [] then [] else
      var (k, v) := fields[0];
      var end := start + |SerField(k, v)|;
      if k !in keys then Complete(fields[1..], end + 1, n, keys)
      else if v.Str? && end <= n then [(k, v.s)] + Complete(fields[1..], end + 1, n, keys)
      else []
  }

  predicate Ordinary(c: char) {
    c != '"' && c != '\\'
  }

  lemma {:induction false} CloseOrdinary(t: string, j: nat, to: nat)
    requires j <= to && forall k :: j <= k < to && k < |t| ==> Ordinary(t[k])
    ensures Close(t, j, false) == (if to <= |t| then Close(t, to, false) else None)
    decreases |t| + to - j
  {
    if j < to {
      CloseOrdinary(t, j + 1, to);
    }
  }

  lemma EscapeShape(c: char)
    ensures var e := EscapeChar(c);
      || (|e| == 1 && Ordinary(e[0]))
      || (|e| == 2 && e[0] == '\\')
      || (|e| == 6 && e[0] == '\\' && forall k :: 2 <= k < 6 ==> Ordinary(e[k]))
  {
  }

  /** An escaped character is passed over whole or cuts the text. */
  lemma CloseChar(f: string, n: nat, j: nat, c: char)
    requires n <= |f| && Here(f, j, EscapeChar(c))
    ensures Close(f[..n], j, false) == if j + |EscapeChar(c)| <= n then Close(f[..n], j + |EscapeChar(c)|, false) else None
  {
    var e, t := EscapeChar(c), f[..n];
    EscapeShape(c);
    forall k | j <= k < j + |e| && k < n ensures t[k] == e[k - j] {
      HereChar(f, j, e, k - j);
    }
    if |e| == 1 {
      CloseOrdinary(t, j, j + 1);
    } else if |e| == 6 {
      CloseOrdinary(t, j + 2, j + 6);
    }
  }

  lemma {:induction false} CloseEscape(f: string, n: nat, j: nat, s: string)
    requires n <= |f| && Here(f, j, Escape(s))
    ensures Close(f[..n], j, false) == (if j + |Escape(s)| <= n then Close(f[..n], j + |Escape(s)|, false) else None)
    decreases |s|
  {
    hide EscapeChar, Here;
    if s != "" {
      var e := EscapeChar(s[0]);
      HereSplit(f, j, e, Escape(s[1..]));
      CloseChar(f, n, j, s[0]);
      CloseEscape(f, n, j + |e|, s[1..]);
    }
  }

  lemma HereQuote(f: string, i: nat, s: string)
    requires Here(f, i, Quote(s))
    ensures f[i] == '"' && Here(f, i + 1, Escape(s)) && f[i + 1 + |Escape(s)|] == '"' && |Quote(s)| == |Escape(s)| + 2
  {
    assert Quote(s) == "\"" + (Escape(s) + "\"");
    HereSplit(f, i, "\"", Escape(s) + "\"");
    HereSplit(f, i + 1, Escape(s), "\"");
    HereChar(f, i, "\"", 0);
    HereChar(f, i + 1 + |Escape(s)|, "\"", 0);
  }

  /** A string literal's end is found exactly when it is in the text whole. */
  lemma QuoteEnd(f: string, n: nat, i: nat, s: string)
    requires n <= |f| && Here(f, i, Quote(s))
    ensures StringEnd(f[..n], i) == if i + |Quote(s)| <= n then Some(i + |Quote(s)|) else None
  {
    HereQuote(f, i, s);
    CloseEscape(f, n, i + 1, s);
  }

  // ---- a literal decodes to what it stands for

  lemma HexDigits(n: nat)
    requires n < 16
    ensures Hex(HexDigit(n)) == Some(n)
  {
  }

  lemma EscapeCharNonEmpty(c: char)
    ensures EscapeChar(c) != ""
  {
  }

  lemma OneEscaped(t: string, i: nat, c: char)
    requires Here(t, i, EscapeChar(c))
    ensures i < |t| && OneChar(t, i) == Some((c, i + |EscapeChar(c)|))
  {
    var e := EscapeChar(c);
    EscapeCharNonEmpty(c);
    forall k | 0 <= k < |e| ensures t[i + k] == e[k] {
      HereChar(t, i, e, k);
    }
    if |e| == 6 {
      HexDigits((c as nat) / 16);
      HexDigits((c as nat) % 16);
      assert Hex('0') == Some(0);
      assert Hex4(t, i + 2) == Some(c as nat);
      assert (c as nat) as char == c;
    }
  }

  lemma {:induction false} UnescapeEscape(t: string, i: nat, s: string)
    requires Here(t, i, Escape(s)) && i + |Escape(s)| == |t|
    ensures Unescape(t, i) == Some(s)
    decreases |s|
  {
    hide EscapeChar, OneChar, Here;
    if s != "" {
      var e := EscapeChar(s[0]);
      HereSplit(t, i, e, Escape(s[1..]));
      OneEscaped(t, i, s[0]);
      UnescapeEscape(t, i + |e|, s[1..]);
      assert [s[0]] + s[1..] == s;
    }
  }

  lemma DecodeQuote(s: string)
    ensures Decode(Quote(s)) == Some(s)
  {
    var q := Quote(s);
    assert q[1..|q| - 1] == Escape(s);
    UnescapeEscape(Escape(s), 0, s);
  }

  // ---- a value is passed over whole

  /** A character that means nothing to the value scan at this depth. */
  predicate Plain(c: char, depth: nat) {
    c != '"' && c != '{' && c != '[' && c != '}' && c != ']' && (c == ',' ==> depth > 0)
  }

  /** The value scan, cut at `n`, passes over `s` at `i` from one depth to another, or runs out of text within it. */
  predicate Passes(f: string, n: nat, i: nat, s: string, before: nat, after: nat)
    requires n <= |f|
  {
    SkipFrom(f[..n], i, before) == if i + |s| <= n then SkipFrom(f[..n], i + |s|, after) else None
  }

  lemma PassesThen(f: string, n: nat, i: nat, a: string, b: string, x: nat, y: nat, z: nat)
    requires n <= |f| && Passes(f, n, i, a, x, y) && Passes(f, n, i + |a|, b, y, z)
    ensures Passes(f, n, i, a + b, x, z)
  {
  }

  lemma {:induction false} SkipPlain(f: string, n: nat, i: nat, depth: nat, s: string)
    requires n <= |f| && Here(f, i, s) && forall k :: 0 <= k < |s| ==> Plain(s[k], depth)
    ensures Passes(f, n, i, s, depth, depth)
    decreases |s|
  {
    if s == "" {
      SkipNothing(f, n, i, depth);
    } else {
      HereChar(f, i, s, 0);
      assert s == [s[0]] + s[1..];
      HereSplit(f, i, [s[0]], s[1..]);
      SkipPlain(f, n, i + 1, depth, s[1..]);
    }
  }

  lemma SkipNothing(f: string, n: nat, i: nat, depth: nat)
    requires n <= |f|
    ensures Passes(f, n, i, "", depth, depth)
  {
  }

  lemma SkipQuote(f: string, n: nat, i: nat, depth: nat, s: string)
    requires n <= |f| && Here(f, i, Quote(s))
    ensures Passes(f, n, i, Quote(s), depth, depth)
  {
    QuoteEnd(f, n, i, s);
    HereChar(f, i, Quote(s), 0);
  }

  lemma SkipOpen(f: string, n: nat, i: nat, depth: nat, open: char)
    requires n <= |f| && (open == '{' || open == '[') && Here(f, i, [open])
    ensures Passes(f, n, i, [open], depth, depth + 1)
  {
    HereChar(f, i, [open], 0);
  }

  lemma SkipShut(f: string, n: nat, i: nat, depth: nat, shut: char)
    requires n <= |f| && (shut == '}' || shut == ']') && Here(f, i, [shut])
    ensures Passes(f, n, i, [shut], depth + 1, depth)
  {
    HereChar(f, i, [shut], 0);
  }

  /** A bracketed text, given that its inside is passed over one level deeper. */
  lemma SkipBracketed(f: string, n: nat, i: nat, depth: nat, open: char, inner: string, shut: char)
    requires n <= |f| && (open == '{' || open == '[') && (shut == '}' || shut == ']')
    requires Here(f, i, [open] + (inner + [shut])) && Passes(f, n, i + 1, inner, depth + 1, depth + 1)
    ensures Passes(f, n, i, [open] + (inner + [shut]), depth, depth)
  {
    HereSplit(f, i, [open], inner + [shut]);
    HereSplit(f, i + 1, inner, [shut]);
    SkipOpen(f, n, i, depth, open);
    SkipShut(f, n, i + 1 + |inner|, depth, shut);
    PassesThen(f, n, i + 1, inner, [shut], depth + 1, depth + 1, depth);
    PassesThen(f, n, i, [open], inner + [shut], depth, depth + 1, depth);
  }

  lemma {:induction false} SkipValue(f: string, n: nat, i: nat, depth: nat, v: Value)
    requires n <= |f| && WellFormed(v) && Here(f, i, Ser(v))
    ensures Passes(f, n, i, Ser(v), depth, depth)
    decreases v, 1
  {
    match v
    case Null => SkipPlain(f, n, i, depth, "null");
    case Bool(b) => SkipPlain(f, n, i, depth, if b then "true" else "false");
    case Num(text) => SkipPlain(f, n, i, depth, text);
    case Str(s) => SkipQuote(f, n, i, depth, s);
    case Arr(items) =>
      var inner := SerItems(items);
      assert Ser(v) == ['['] + (inner + [']']);
      HereSplit(f, i, ['['], inner + [']']);
      HereSplit(f, i + 1, inner, [']']);
      SkipItems(f, n, i + 1, depth + 1, items);
      SkipBracketed(f, n, i, depth, '[', inner, ']');
    case Obj(fields) =>
      var inner := SerFields(fields);
      assert Ser(v) == ['{'] + (inner + ['}']);
      HereSplit(f, i, ['{'], inner + ['}']);
      HereSplit(f, i + 1, inner, ['}']);
      SkipFields(f, n, i + 1, depth + 1, fields);
      SkipBracketed(f, n, i, depth, '{', inner, '}');
  }

  lemma {:induction false} SkipItems(f: string, n: nat, i: nat, depth: nat, items: seq<Value>)
    requires n <= |f| && depth > 0 && (forall x :: x in items ==> WellFormed(x)) && Here(f, i, SerItems(items))
    ensures Passes(f, n, i, SerItems(items), depth, depth)
    decreases items, 0
  {
    hide Here, SkipFrom, Quote;
    if items == [] {
      SkipNothing(f, n, i, depth);
    } else {
      var head := Ser(items[0]);
      if |items| == 1 {
        assert SerItems(items) == head;
        SkipValue(f, n, i, depth, items[0]);
      } else {
        var rest := SerItems(items[1..]);
        assert SerItems(items) == head + ("," + rest);
        HereSplit(f, i, head, "," + rest);
        SkipValue(f, n, i, depth, items[0]);
        SkipComma(f, n, i + |head|, depth, rest);
        HereSplit(f, i + |head|, ",", rest);
        SkipItems(f, n, i + |head| + 1, depth, items[1..]);
        PassesThen(f, n, i + |head|, ",", rest, depth, depth, depth);
        PassesThen(f, n, i, head, "," + rest, depth, depth, depth);
      }
    }
  }

  lemma SkipComma(f: string, n: nat, i: nat, depth: nat, rest: string)
    requires n <= |f| && depth > 0 && Here(f, i, "," + rest)
    ensures Passes(f, n, i, ",", depth, depth)
  {
    HereSplit(f, i, ",", rest);
    SkipPlain(f, n, i, depth, ",");
  }

  lemma {:induction false} SkipField(f: string, n: nat, i: nat, depth: nat, k: string, v: Value)
    requires n <= |f| && WellFormed(v) && Here(f, i, SerField(k, v))
    ensures Passes(f, n, i, SerField(k, v), depth, depth)
    decreases v, 2
  {
    hide Quote, Ser, SkipFrom, Escape;
    var q := Quote(k);
    assert SerField(k, v) == q + (":" + Ser(v));
    HereSplit(f, i, q, ":" + Ser(v));
    HereSplit(f, i + |q|, ":", Ser(v));
    SkipQuote(f, n, i, depth, k);
    SkipPlain(f, n, i + |q|, depth, ":");
    SkipValue(f, n, i + |q| + 1, depth, v);
    PassesThen(f, n, i + |q|, ":", Ser(v), depth, depth, depth);
    PassesThen(f, n, i, q, ":" + Ser(v), depth, depth, depth);
  }

  lemma {:induction false} SkipFields(f: string, n: nat, i: nat, depth: nat, fields: seq<(string, Value)>)
    requires n <= |f| && depth > 0 && (forall x :: x in fields ==> WellFormed(x.1)) && Here(f, i, SerFields(fields))
    ensures Passes(f, n, i, SerFields(fields), depth, depth)
    decreases fields, 0
  {
    hide Here, SkipFrom, Quote;
    if fields == [] {
      SkipNothing(f, n, i, depth);
    } else {
      assert fields[0] in fields;
      assert fields[0].1 < fields[0];
      var head := SerField(fields[0].0, fields[0].1);
      if |fields| == 1 {
        assert SerFields(fields) == head;
        SkipField(f, n, i, depth, fields[0].0, fields[0].1);
      } else {
        var rest := SerFields(fields[1..]);
        assert SerFields(fields) == head + ("," + rest);
        HereSplit(f, i, head, "," + rest);
        SkipField(f, n, i, depth, fields[0].0, fields[0].1);
        SkipComma(f, n, i + |head|, depth, rest);
        HereSplit(f, i + |head|, ",", rest);
        SkipFields(f, n, i + |head| + 1, depth, fields[1..]);
        PassesThen(f, n, i + |head|, ",", rest, depth, depth, depth);
        PassesThen(f, n, i, head, "," + rest, depth, depth, depth);
      }
    }
  }

  // ---- the scan of a cut document

  lemma NoSpace(t: string, i: nat)
    requires i <= |t| && (i < |t| ==> !IsSpace(t[i]))
    ensures SkipSpace(t, i) == i
  {
  }

  lemma SerStart(v: Value)
    requires WellFormed(v)
    ensures Ser(v) != "" && !IsSpace(Ser(v)[0]) && (Ser(v)[0] == '"' <==> v.Str?)
  {
  }

  /** What stands after a field: the comma before the next one, or the closing brace. */
  predicate Ends(f: string, e: nat) {
    e < |f| && (f[e] == ',' || f[e] == '}')
  }

  /** The value of a field that is no event field: passed over when the text goes on after it. */
  lemma PassValue(f: string, n: nat, i: nat, v: Value)
    requires n <= |f| && WellFormed(v) && Here(f, i, Ser(v)) && Ends(f, i + |Ser(v)|)
    ensures SkipFrom(f[..n], i, 0) == if i + |Ser(v)| < n then Some(i + |Ser(v)|) else None
  {
    SkipValue(f, n, i, 0, v);
  }

  /** The step over a field of the document that ends at `e`, the text cut at `n`. */
  function ExpectedStep(k: string, v: Value, e: nat, n: nat, f: string, keys: seq<string>): FieldStep
    requires Ends(f, e)
  {
    var next := if e < n && f[e] == ',' then e + 1 else e;
    if k in keys then
      if v.Str? && e <= n then Go(next, [(k, v.s)]) else Stop
    else if e < n then Go(next, []) else Stop
  }

  lemma FieldShape(k: string, v: Value)
    ensures SerField(k, v) == Quote(k) + ([':'] + Ser(v))
  {
    assert Quote(k) + ":" + Ser(v) == Quote(k) + (":" + Ser(v));
  }

  lemma SliceOfPrefix(f: string, n: nat, a: nat, b: nat)
    requires a <= b <= n <= |f|
    ensures f[..n][a..b] == f[a..b]
  {
  }

  /** The key is read from `i` up to its colon at `c`. */
  predicate KeyRead(t: string, i: nat, c: nat, k: string) {
    && i < c < |t| && t[i] == '"' && StringEnd(t, i) == Some(c) && Decode(t[i..c]) == Some(k) && t[c] == ':'
  }

  lemma QuoteRead(f: string, n: nat, i: nat, k: string)
    requires n <= |f| && Here(f, i, Quote(k))
    ensures f[i] == '"'
    ensures i + |Quote(k)| > n ==> StringEnd(f[..n], i) == None
    ensures i + |Quote(k)| <= n ==>
      StringEnd(f[..n], i) == Some(i + |Quote(k)|) && Decode(f[..n][i..i + |Quote(k)|]) == Some(k)
  {
    HereQuote(f, i, k);
    QuoteEnd(f, n, i, k);
    if i + |Quote(k)| <= n {
      SliceOfPrefix(f, n, i, i + |Quote(k)|);
      DecodeQuote(k);
    }
  }

  /** The step once the key is read, its value starting at `c + 1`. */
  function ValueStep(t: string, at: nat, k: string, keys: seq<string>): FieldStep {
    if k in keys then
      (match StringEnd(t, at)
       case None => Stop
       case Some(e) => if Decode(t[at..e]).None? then Stop else Go(PastComma(t, e), [(k, Decode(t[at..e]).value)]))
    else (match SkipFrom(t, at, 0) case None => Stop case Some(e) => Go(PastComma(t, e), []))
  }

  lemma KeyStep(t: string, i: nat, c: nat, k: string, keys: seq<string>)
    requires KeyRead(t, i, c, k) && (c + 1 < |t| ==> !IsSpace(t[c + 1]))
    ensures StepAt(t, i, keys) == ValueStep(t, c + 1, k, keys)
  {
    NoSpace(t, i);
    NoSpace(t, c);
    NoSpace(t, c + 1);
  }

  lemma CutInKey(t: string, i: nat, keys: seq<string>)
    requires i <= |t| && (i < |t| ==> t[i] == '"')
    requires StringEnd(t, i) == None || StringEnd(t, i) == Some(|t|)
    ensures StepAt(t, i, keys) == Stop
  {
    NoSpace(t, i);
    if StringEnd(t, i) == Some(|t|) {
      NoSpace(t, |t|);
    }
  }

  lemma StepIsExpected(f: string, n: nat, i: nat, k: string, v: Value, keys: seq<string>)
    requires i <= n <= |f| && WellFormed(v) && Here(f, i, SerField(k, v)) && Ends(f, i + |SerField(k, v)|)
    ensures StepAt(f[..n], i, keys) == ExpectedStep(k, v, i + |SerField(k, v)|, n, f, keys)
  {
    hide Quote, Ser, SerFields, Escape, StringEnd, SkipFrom, Decode, IsSpace, StepAt;
    var c := i + |Quote(k)|;
    FieldShape(k, v);
    ThreeParts(f, i, Quote(k), ':', Ser(v));
    QuoteRead(f, n, i, k);
    ValueStart(f, c + 1, v);
    if c < n {
      ValueIsExpected(f, n, c + 1, k, v, keys);
    }
    StepOverParts(f, n, i, c, c + 1 + |Ser(v)|, k, v, keys);
  }

  lemma ValueStart(f: string, at: nat, v: Value)
    requires WellFormed(v) && Here(f, at, Ser(v))
    ensures at < |f| && !IsSpace(f[at]) && (f[at] == '"' <==> v.Str?)
  {
    SerStart(v);
    HereChar(f, at, Ser(v), 0);
  }

  lemma StepOverParts(f: string, n: nat, i: nat, c: nat, e: nat, k: string, v: Value, keys: seq<string>)
    requires i <= n <= |f| && i < c < e && Ends(f, e) && f[i] == '"' && f[c] == ':' && !IsSpace(f[c + 1])
    requires c > n ==> StringEnd(f[..n], i) == None
    requires c <= n ==> StringEnd(f[..n], i) == Some(c) && Decode(f[..n][i..c]) == Some(k)
    requires c < n ==> ValueStep(f[..n], c + 1, k, keys) == ExpectedStep(k, v, e, n, f, keys)
    ensures StepAt(f[..n], i, keys) == ExpectedStep(k, v, e, n, f, keys)
  {
    if c >= n {
      CutInKey(f[..n], i, keys);
    } else {
      KeyStep(f[..n], i, c, k, keys);
    }
  }

  lemma ValueIsExpected(f: string, n: nat, at: nat, k: string, v: Value, keys: seq<string>)
    requires at <= n <= |f| && WellFormed(v) && Here(f, at, Ser(v)) && Ends(f, at + |Ser(v)|)
    ensures ValueStep(f[..n], at, k, keys) == ExpectedStep(k, v, at + |Ser(v)|, n, f, keys)
  {
    hide Escape, SkipFrom, Decode;
    if k !in keys {
      PassValue(f, n, at, v);
    } else if v.Str? {
      QuoteRead(f, n, at, v.s);
    } else {
      ValueStart(f, at, v);
    }
  }

  lemma {:induction false} NothingPastCut(fields: seq<(string, Value)>, start: nat, n: nat, keys: seq<string>)
    requires start > n
    ensures Complete(fields, start, n, keys) == []
  {
    if fields != [] {
      NothingPastCut(fields[1..], start + |SerField(fields[0].0, fields[0].1)| + 1, n, keys);
    }
  }

  lemma ScanStops(t: string, i: nat, keys: seq<string>, found: Found)
    requires i <= |t| && (i == |t| || t[i] == '}')
    ensures Scan(t, i, keys, found) == found
  {
    NoSpace(t, i);
  }

  /** What stands in the document from some last fields on. */
  function Tail(fields: seq<(string, Value)>): string {
    SerFields(fields) + "}"
  }

  lemma EmptyTail(f: string, i: nat)
    requires Here(f, i, Tail([]))
    ensures f[i] == '}'
  {
    HereChar(f, i, Tail([]), 0);
  }

  lemma TailShape(fields: seq<(string, Value)>)
    requires fields != []
    ensures Tail(fields) == SerField(fields[0].0, fields[0].1) + (if |fields| == 1 then "}" else [','] + Tail(fields[1..]))
  {
    var head := SerField(fields[0].0, fields[0].1);
    if |fields| == 1 {
      assert SerFields(fields) == head + "" == head;
    } else {
      var rest := SerFields(fields[1..]);
      assert SerFields(fields) == head + ("," + rest);
      assert (head + ("," + rest)) + "}" == head + ([','] + (rest + "}"));
    }
  }

  /** The step over the first of some fields, and what then stands where it goes on. */
  lemma FirstStep(f: string, n: nat, i: nat, fields: seq<(string, Value)>, keys: seq<string>)
    requires i <= n <= |f| && fields != [] && WellFormed(fields[0].1) && Here(f, i, Tail(fields))
    ensures var e := i + |SerField(fields[0].0, fields[0].1)|;
      && Ends(f, e)
      && StepAt(f[..n], i, keys) == ExpectedStep(fields[0].0, fields[0].1, e, n, f, keys)
      && (|fields| == 1 ==> f[e] == '}')
      && (|fields| > 1 ==> f[e] == ',' && Here(f, e + 1, Tail(fields[1..])))
  {
    hide Quote, Ser, SerFields, Escape, StringEnd, SkipFrom, Decode, IsSpace, StepAt;
    var head := SerField(fields[0].0, fields[0].1);
    TailShape(fields);
    if |fields| == 1 {
      HereSplit(f, i, head, "}");
      HereChar(f, i + |head|, "}", 0);
    } else {
      ThreeParts(f, i, head, ',', Tail(fields[1..]));
    }
    StepIsExpected(f, n, i, fields[0].0, fields[0].1, keys);
  }

  /** The scan from the start of some last fields of the document. */
  lemma {:induction false} ScanIsComplete(f: string, n: nat, i: nat, fields: seq<(string, Value)>, keys: seq<string>, found: Found)
    requires i <= n <= |f| && (forall x :: x in fields ==> WellFormed(x.1)) && Here(f, i, Tail(fields))
    ensures Scan(f[..n], i, keys, found) == found + Complete(fields, i, n, keys)
    decreases |fields|, 0
  {
    hide Quote, Ser, SerFields, Escape, StringEnd, SkipFrom, Decode, IsSpace, StepAt;
    if fields == [] {
      EmptyTail(f, i);
      ScanStops(f[..n], i, keys, found);
      assert found + [] == found;
    } else {
      assert fields[0] in fields;
      FirstStep(f, n, i, fields, keys);
      var e := i + |SerField(fields[0].0, fields[0].1)|;
      GoOn(f, n, e, fields[0].0, fields[0].1, fields[1..], keys, found);
    }
  }

  /** From the step over a field that ends at `e`, the rest after it. */
  lemma {:induction false} GoOn(f: string, n: nat, e: nat, k: string, v: Value, rest: seq<(string, Value)>, keys: seq<string>, found: Found)
    requires n <= |f| && Ends(f, e) && (forall x :: x in rest ==> WellFormed(x.1))
    requires rest == [] ==> f[e] == '}'
    requires rest != [] ==> f[e] == ',' && Here(f, e + 1, Tail(rest))
    ensures var more := Complete(rest, e + 1, n, keys);
      match ExpectedStep(k, v, e, n, f, keys)
      case Stop => k !in keys ==> more == []
      case Go(next, pair) => next <= n && Scan(f[..n], next, keys, found + pair) == found + (pair + more)
    decreases |rest|, 1
  {
    hide Quote, Ser, SerFields, Escape, StringEnd, SkipFrom, Decode, IsSpace, StepAt;
    match ExpectedStep(k, v, e, n, f, keys)
    case Stop => if k !in keys { NothingPastCut(rest, e + 1, n, keys); }
    case Go(next, pair) =>
      assert found + pair + Complete(rest, e + 1, n, keys) == found + (pair + Complete(rest, e + 1, n, keys));
      if e < n && rest != [] {
        ScanIsComplete(f, n, e + 1, rest, keys, found + pair);
      } else {
        ScanStops(f[..n], e, keys, found + pair);
        if e == n { NothingPastCut(rest, e + 1, n, keys); }
        assert found + pair + [] == found + pair;
      }
  }

  /**
   For an object cut off after any number of characters: the event is the first preferred key among the complete top-level string
   fields, up to an event key whose value is not a string. The cut may fall anywhere, and nested values may hold any text.
   */
  lemma EventOfCutDocument(fields: seq<(string, Value)>, n: nat, keys: seq<string>)
    requires n <= |Document(fields)| && forall x :: x in fields ==> WellFormed(x.1)
    ensures EventOfPrefix(Document(fields)[..n], keys) == if n == 0 then None else Best(keys, Complete(fields, 1, n, keys))
  {
    hide Quote, Ser, SerFields, Escape, StringEnd, SkipFrom, Decode, StepAt;
    var f := Document(fields);
    DocumentShape(fields);
    NoSpace(f[..n], 0);
    if n > 0 {
      ScanIsComplete(f, n, 1, fields, keys, []);
      assert [] + Complete(fields, 1, n, keys) == Complete(fields, 1, n, keys);
    }
  }

  lemma DocumentShape(fields: seq<(string, Value)>)
    ensures var f := Document(fields); f != "" && f[0] == '{' && Here(f, 1, Tail(fields))
  {
    assert Document(fields) == "{" + Tail(fields);
  }

  // ---- against a full parse

  /** The text of the first field of a name; none when there is no such field or it holds something else. */
  function FirstText(fields: seq<(string, Value)>, k: string): Option<string> {
    if fields == [] then None
    else if fields[0].0 == k then (if fields[0].1.Str? then Some(fields[0].1.s) else None)
    else FirstText(fields[1..], k)
  }

  /** The text a parsed object holds for a name: a later field of a name replaces an earlier one. */
  function ParsedText(fields: seq<(string, Value)>, k: string): Option<string> {
    if fields == [] then None else
      var n := |fields| - 1;
      if fields[n].0 == k then (if fields[n].1.Str? then Some(fields[n].1.s) else None) else ParsedText(fields[..n], k)
  }

  /** The event of a parsed object: the first preferred key whose value is a string. */
  function EventOf(fields: seq<(string, Value)>, keys: seq<string>): Option<string> {
    if keys == [] then None
    else match ParsedText(fields, keys[0])
      case Some(s) => Some(s)
      case None => EventOf(fields, keys[1..])
  }

  predicate Present(fields: seq<(string, Value)>, k: string) {
    exists i :: 0 <= i < |fields| && fields[i].0 == k
  }

  /** The first preferred key that some field has. */
  function Preferred(fields: seq<(string, Value)>, keys: seq<string>): (r: Option<string>)
    ensures r.Some? ==> r.value in keys && Present(fields, r.value)
  {
    if keys == [] then None
    else if Present(fields, keys[0]) then Some(keys[0])
    else Preferred(fields, keys[1..])
  }

  /** How many of the fields are complete within the cut. */
  function CountComplete(fields: seq<(string, Value)>, start: nat, n: nat): (c: nat)
    ensures c <= |fields|
  {
    if fields == [] then 0 else
      var end := start + |SerField(fields[0].0, fields[0].1)|;
      if end <= n then 1 + CountComplete(fields[1..], end + 1, n) else 0
  }

  /** The fields complete within the first `n` characters of the document. */
  function CompleteFields(fields: seq<(string, Value)>, n: nat): seq<(string, Value)> {
    fields[..CountComplete(fields, 1, n)]
  }

  predicate EventsAreStrings(fields: seq<(string, Value)>, keys: seq<string>) {
    forall x :: x in fields && x.0 in keys ==> x.1.Str?
  }

  lemma {:induction false} FoundIsString(fields: seq<(string, Value)>, start: nat, n: nat, keys: seq<string>, k: string)
    requires EventsAreStrings(fields, keys) && k in keys
    ensures FirstOf(Complete(fields, start, n, keys), k) == FirstText(fields[..CountComplete(fields, start, n)], k)
  {
    if fields != [] {
      var (q, v) := fields[0];
      var end := start + |SerField(q, v)|;
      var count := CountComplete(fields[1..], end + 1, n);
      assert fields[0] in fields && forall x :: x in fields[1..] ==> x in fields;
      if end <= n {
        FoundIsString(fields[1..], end + 1, n, keys, k);
        assert fields[..1 + count] == [fields[0]] + fields[1..][..count];
        if q in keys {
          assert ([(q, v.s)] + Complete(fields[1..], end + 1, n, keys))[1..] == Complete(fields[1..], end + 1, n, keys);
        }
      } else if q !in keys {
        NothingPastCut(fields[1..], end + 1, n, keys);
      }
    }
  }

  lemma {:induction false} FirstTextIsThere(fields: seq<(string, Value)>, keys: seq<string>, k: string)
    requires EventsAreStrings(fields, keys) && k in keys
    ensures FirstText(fields, k).Some? <==> Present(fields, k)
  {
    if fields != [] {
      assert fields[0] in fields && forall x :: x in fields[1..] ==> x in fields;
      FirstTextIsThere(fields[1..], keys, k);
      assert forall i :: 0 < i < |fields| ==> fields[i] == fields[1..][i - 1];
    }
  }

  lemma {:induction false} ParsedTextIsThere(fields: seq<(string, Value)>, keys: seq<string>, k: string)
    requires EventsAreStrings(fields, keys) && k in keys
    ensures ParsedText(fields, k).Some? <==> Present(fields, k)
  {
    if fields != [] {
      var n := |fields| - 1;
      assert fields[n] in fields && forall x :: x in fields[..n] ==> x in fields;
      ParsedTextIsThere(fields[..n], keys, k);
      assert forall i :: 0 <= i < n ==> fields[i] == fields[..n][i];
    }
  }

  /** The scan answers the first text of the preferred key, and the parse its last. */
  lemma {:induction false} BothPrefer(
    fields: seq<(string, Value)>, found: Found, keys: seq<string>, wanted: seq<string>)
    requires EventsAreStrings(fields, keys) && (forall k :: k in wanted ==> k in keys)
    requires forall k :: k in keys ==> FirstOf(found, k) == FirstText(fields, k)
    ensures var k := Preferred(fields, wanted);
      && Best(wanted, found) == (if k.Some? then FirstText(fields, k.value) else None)
      && EventOf(fields, wanted) == (if k.Some? then ParsedText(fields, k.value) else None)
  {
    if wanted != [] {
      BothPrefer(fields, found, keys, wanted[1..]);
      FirstTextIsThere(fields, keys, wanted[0]);
      ParsedTextIsThere(fields, keys, wanted[0]);
    }
  }

  lemma CompleteAreStrings(fields: seq<(string, Value)>, n: nat, keys: seq<string>)
    requires EventsAreStrings(fields, keys)
    ensures EventsAreStrings(CompleteFields(fields, n), keys)
  {
    assert forall x :: x in CompleteFields(fields, n) ==> x in fields;
  }

  /**
   When every event key of the payload holds a string: the scan of a cut payload answers what a parse answers for the object of its
   complete fields if and only if the first and the last of those fields with the preferred key hold the same text.
   */
  lemma {:induction false} CutAgreesExactly(fields: seq<(string, Value)>, n: nat, keys: seq<string>)
    requires 0 < n <= |Document(fields)| && EventsAreStrings(fields, keys)
    requires forall x :: x in fields ==> WellFormed(x.1)
    ensures var whole := CompleteFields(fields, n);
      EventOfPrefix(Document(fields)[..n], keys) == EventOf(whole, keys)
      <==> (match Preferred(whole, keys) case None => true case Some(k) => FirstText(whole, k) == ParsedText(whole, k))
  {
    EventOfCutDocument(fields, n, keys);
    CompleteAreStrings(fields, n, keys);
    forall k | k in keys ensures FirstOf(Complete(fields, 1, n, keys), k) == FirstText(CompleteFields(fields, n), k) {
      FoundIsString(fields, 1, n, keys, k);
    }
    hide EventOfPrefix, Document, Complete, CompleteFields, WellFormed;
    BothPrefer(CompleteFields(fields, n), Complete(fields, 1, n, keys), keys, keys);
  }

  /** No event key stands twice. */
  predicate EventsOnce(fields: seq<(string, Value)>, keys: seq<string>) {
    forall i, j :: 0 <= i < j < |fields| && fields[i].0 in keys ==> fields[i].0 != fields[j].0
  }

  lemma {:induction false} FirstTextAt(fields: seq<(string, Value)>, i: nat, k: string)
    requires i < |fields| && fields[i].0 == k && fields[i].1.Str? && forall j :: 0 <= j < i ==> fields[j].0 != k
    ensures FirstText(fields, k) == Some(fields[i].1.s)
  {
    if i > 0 {
      FirstTextAt(fields[1..], i - 1, k);
    }
  }

  lemma {:induction false} ParsedTextAt(fields: seq<(string, Value)>, i: nat, k: string)
    requires i < |fields| && fields[i].0 == k && fields[i].1.Str? && forall j :: i < j < |fields| ==> fields[j].0 != k
    ensures ParsedText(fields, k) == Some(fields[i].1.s)
  {
    if i < |fields| - 1 {
      ParsedTextAt(fields[..|fields| - 1], i, k);
    }
  }

  /** In particular it does when no event key stands twice. */
  lemma CutAgreesWithParse(fields: seq<(string, Value)>, n: nat, keys: seq<string>)
    requires 0 < n <= |Document(fields)| && EventsAreStrings(fields, keys) && EventsOnce(fields, keys)
    requires forall x :: x in fields ==> WellFormed(x.1)
    ensures EventOfPrefix(Document(fields)[..n], keys) == EventOf(CompleteFields(fields, n), keys)
  {
    CutAgreesExactly(fields, n, keys);
    var whole := CompleteFields(fields, n);
    CompleteAreStrings(fields, n, keys);
    match Preferred(whole, keys)
    case None =>
    case Some(k) =>
      var i :| 0 <= i < |whole| && whole[i].0 == k;
      assert whole[i] in whole && forall j :: 0 <= j < |whole| ==> whole[j] == fields[j];
      FirstTextAt(whole, i, k);
      ParsedTextAt(whole, i, k);
  }

  // ---- a key that stands twice

  lemma TwoComplete(k: string, s: string, t: string)
    ensures var fields := [(k, Str(s)), (k, Str(t))]; CompleteFields(fields, |Document(fields)| - 1) == fields
  {
    var fields := [(k, Str(s)), (k, Str(t))];
    assert fields[1..] == [fields[1]] && fields[1..][1..] == [];
    var a, b := SerField(k, Str(s)), SerField(k, Str(t));
    assert SerFields(fields[1..]) == b + "" == b;
    assert SerFields(fields) == a + ("," + b);
    var n := |Document(fields)| - 1;
    assert n == 2 + |a| + |b|;
    assert CountComplete([], n + 1, n) == 0;
    assert CountComplete(fields[1..], 2 + |a|, n) == 1;
    assert CountComplete(fields, 1, n) == 2;
    assert fields[..2] == fields;
  }

  lemma {:induction false} OnlyKeyPreferred(fields: seq<(string, Value)>, keys: seq<string>, k: string)
    requires k in keys && Present(fields, k) && forall i :: 0 <= i < |fields| ==> fields[i].0 == k
    ensures Preferred(fields, keys) == Some(k)
  {
    if keys[0] != k {
      OnlyKeyPreferred(fields, keys[1..], k);
    }
  }

  /** An event key given twice, the payload cut before its last brace: the scan answers the first text, where a parse keeps the second. */
  lemma RepeatedKeyIsReadOnce(k: string, s: string, t: string, keys: seq<string>)
    requires k in keys && s != t
    ensures var fields := [(k, Str(s)), (k, Str(t))];
      var n := |Document(fields)| - 1;
      && EventOfPrefix(Document(fields)[..n], keys) == Some(s)
      && EventOf(CompleteFields(fields, n), keys) == Some(t)
  {
    var fields := [(k, Str(s)), (k, Str(t))];
    var n := |Document(fields)| - 1;
    TwoComplete(k, s, t);
    EventOfCutDocument(fields, n, keys);
    assert EventsAreStrings(fields, keys);
    forall q | q in keys ensures FirstOf(Complete(fields, 1, n, keys), q) == FirstText(fields, q) {
      FoundIsString(fields, 1, n, keys, q);
    }
    FirstTextAt(fields, 0, k);
    ParsedTextAt(fields, 1, k);
    assert fields[0].0 == k;
    OnlyKeyPreferred(fields, keys, k);
    hide EventOfPrefix, Document, Complete, FirstText, ParsedText;
    BothPrefer(fields, Complete(fields, 1, n, keys), keys, keys);
  }
}
