/**
 The reader of JavaScript literals that the documentation generator uses: a position that moves over the text, and the value read up to
 it. It is written as functions of the text and a position, and as the object whose methods move the position, which is proved against
 them. Every refusal, whichever exception the original raises for it, is `None` or `false` here.
 */
module JsLiteral {
  import opened Prelude

  /** Texts as the original holds them: character codes, which may be any that an escape names. */
  type Text = seq<nat>

  datatype Js =
    | Number(text: string)
    | True
    | False
    | Nothing
    | Str(s: Text)
    | Arr(items: seq<Js>)
    | Obj(fields: map<Text, Js>)

  function Codes(s: string): (t: Text)
    ensures |t| == |s| && forall i :: 0 <= i < |s| ==> t[i] == s[i] as nat
  {
    seq(|s|, i requires 0 <= i < |s| => s[i] as nat)
  }

  /** Reading a text as a base-16 number. */
  type Base16 = string -> Option<nat>

  // ---- characters

  predicate Digit(c: char) {
    '0' <= c <= '9'
  }

  predicate IdentStart(c: char) {
    'a' <= c <= 'z' || 'A' <= c <= 'Z' || c == '_' || c == '$'
  }

  predicate IdentPart(c: char) {
    IdentStart(c) || Digit(c)
  }

  predicate Space(c: char) {
    c == ' ' || c == '\t' || c == '\r' || c == '\n'
  }

  predicate Is(s: string, i: nat, c: char) {
    i < |s| && s[i] == c
  }

  // ---- between tokens

  /** The position of a character from `i` on; the end when there is none. */
  function FindChar(s: string, i: nat, c: char): (r: nat)
    requires i <= |s|
    ensures i <= r <= |s|
    decreases |s| - i
  {
    if i == |s| || s[i] == c then i else FindChar(s, i + 1, c)
  }

  /** The position of the end of a block comment from `i` on. */
  function FindClose(s: string, i: nat): (r: Option<nat>)
    ensures r.Some? ==> i <= r.value && r.value + 2 <= |s|
    decreases |s| - i
  {
    if i + 2 > |s| then None
    else if s[i] == '*' && s[i + 1] == '/' then Some(i)
    else FindClose(s, i + 1)
  }

  /** Past the white space and the comments at `i`; none for a comment that does not end. */
  function Skip(s: string, i: nat): (r: Option<nat>)
    requires i <= |s|
    ensures r.Some? ==> i <= r.value <= |s|
    decreases |s| - i
  {
    if i == |s| then Some(i)
    else if Space(s[i]) then Skip(s, i + 1)
    else if s[i] == '/' && Is(s, i + 1, '/') then
      var end := FindChar(s, i, '\n');
      if end == |s| then Some(|s|) else Skip(s, end + 1)
    else if s[i] == '/' && Is(s, i + 1, '*') then
      (match FindClose(s, i + 2) case None => None case Some(end) => Skip(s, end + 2))
    else Some(i)
  }

  // ---- tokens

  function IdentEnd(s: string, i: nat): (r: nat)
    requires i <= |s|
    ensures i <= r <= |s|
    decreases |s| - i
  {
    if i < |s| && IdentPart(s[i]) then IdentEnd(s, i + 1) else i
  }

  function DigitsEnd(s: string, i: nat, underscores: bool): (r: nat)
    requires i <= |s|
    ensures i <= r <= |s|
    decreases |s| - i
  {
    if i < |s| && (Digit(s[i]) || (underscores && s[i] == '_')) then DigitsEnd(s, i + 1, underscores) else i
  }

  /** Past the whole part of a number. */
  function WholeEnd(s: string, i: nat): (r: Option<nat>)
    requires i <= |s|
    ensures r.Some? ==> i < r.value <= |s|
  {
    if i == |s| || !Digit(s[i]) then None
    else if s[i] == '0' then Some(i + 1)
    else Some(DigitsEnd(s, i + 1, true))
  }

  /** Past a fraction, if there is one. */
  function FractionEnd(s: string, i: nat): (r: nat)
    requires i <= |s|
    ensures i <= r <= |s|
  {
    if Is(s, i, '.') && DigitsEnd(s, i + 1, true) > i + 1 then DigitsEnd(s, i + 1, true) else i
  }

  /** Past an exponent, if there is one. */
  function ExponentEnd(s: string, i: nat): (r: nat)
    requires i <= |s|
    ensures i <= r <= |s|
  {
    if !Is(s, i, 'e') && !Is(s, i, 'E') then i
    else
      var d := if Is(s, i + 1, '+') || Is(s, i + 1, '-') then i + 2 else i + 1;
      if DigitsEnd(s, d, false) > d then DigitsEnd(s, d, false) else i
  }

  function NumberEnd(s: string, i: nat): (r: Option<nat>)
    requires i <= |s|
    ensures r.Some? ==> i < r.value <= |s|
  {
    match WholeEnd(s, if Is(s, i, '-') then i + 1 else i)
    case None => None
    case Some(j) => Some(ExponentEnd(s, FractionEnd(s, j)))
  }

  function WithoutUnderscores(t: string): string {
    if t == "" then "" else (if t[0] == '_' then [] else [t[0]]) + WithoutUnderscores(t[1..])
  }

  function Word(w: string): Option<Js> {
    if w == "true" then Some(True)
    else if w == "false" then Some(False)
    else if w == "null" || w == "undefined" then Some(Nothing)
    else None
  }

  /** What a character stands for after a backslash. */
  function Escape(c: char): nat {
    if c == 'n' then 10
    else if c == 't' then 9
    else if c == 'r' then 13
    else if c == 'b' then 8
    else if c == 'f' then 12
    else if c == 'v' then 11
    else if c == '0' then 0
    else c as nat
  }

  function Slice(s: string, from: nat, to: nat): string {
    if from <= to <= |s| then s[from..to] else if from <= |s| < to then s[from..] else ""
  }

  /** One character of a string at `i`, and where the next stands. */
  function OneChar(s: string, i: nat, base16: Base16): (r: Option<(nat, nat)>)
    requires i < |s|
    ensures r.Some? ==> i < r.value.1
  {
    if s[i] == '\n' then None
    else if s[i] != '\\' then Some((s[i] as nat, i + 1))
    else if i + 1 >= |s| then None
    else if s[i + 1] == 'u' then
      (match base16(Slice(s, i + 2, i + 6)) case None => None case Some(n) => Some((n, i + 6)))
    else if s[i + 1] == 'x' then
      (match base16(Slice(s, i + 2, i + 4)) case None => None case Some(n) => Some((n, i + 4)))
    else Some((Escape(s[i + 1]), i + 2))
  }

  /** The rest of a string from `i` to its closing quote, after the characters read before. */
  function Chars(s: string, i: nat, q: char, before: Text, base16: Base16): (r: Option<(Text, nat)>)
    ensures r.Some? ==> i < r.value.1 <= |s|
    decreases |s| - i
  {
    if i >= |s| then None
    else if s[i] == q then Some((before, i + 1))
    else match OneChar(s, i, base16)
      case None => None
      case Some((c, next)) => Chars(s, next, q, before + [c], base16)
  }

  predicate QuoteMark(c: char) {
    c == '\'' || c == '"'
  }

  // ---- values

  function Value(s: string, from: nat, base16: Base16): (r: Option<(Js, nat)>)
    requires from <= |s|
    ensures r.Some? ==> from < r.value.1 <= |s|
    decreases |s| - from, 0
  {
    match Skip(s, from)
    case None => None
    case Some(i) =>
      if i == |s| then None
      else if s[i] == '[' then
        (match Items(s, i + 1, [], base16) case None => None case Some((items, end)) => Some((Arr(items), end)))
      else if s[i] == '{' then
        (match Fields(s, i + 1, map[], base16) case None => None case Some((m, end)) => Some((Obj(m), end)))
      else if QuoteMark(s[i]) then
        (match Chars(s, i + 1, s[i], [], base16) case None => None case Some((t, end)) => Some((Str(t), end)))
      else match NumberEnd(s, i)
        case Some(end) => Some((Number(WithoutUnderscores(s[i..end])), end))
        case None =>
          if !IdentStart(s[i]) then None
          else match Word(s[i..IdentEnd(s, i)])
            case None => None
            case Some(v) => Some((v, IdentEnd(s, i)))
  }

  /** The items of an array from `from` to past its bracket, after the ones read before. */
  function Items(s: string, from: nat, before: seq<Js>, base16: Base16): (r: Option<(seq<Js>, nat)>)
    requires from <= |s|
    ensures r.Some? ==> from < r.value.1 <= |s|
    decreases |s| - from, 1
  {
    match Skip(s, from)
    case None => None
    case Some(i) =>
      if i == |s| then None
      else if s[i] == ']' then Some((before, i + 1))
      else match Value(s, i, base16)
        case None => None
        case Some((v, after)) =>
          match Separator(s, after, ']')
          case None => None
          case Some(next) => Items(s, next, before + [v], base16)
  }

  /** A property name at `i`. */
  function Key(s: string, i: nat, base16: Base16): (r: Option<(Text, nat)>)
    requires i < |s|
    ensures r.Some? ==> i < r.value.1 <= |s|
  {
    if QuoteMark(s[i]) then Chars(s, i + 1, s[i], [], base16)
    else if IdentStart(s[i]) then Some((Codes(s[i..IdentEnd(s, i)]), IdentEnd(s, i)))
    else None
  }

  /** A property name and its colon at `i`. */
  function KeyColon(s: string, i: nat, base16: Base16): (r: Option<(Text, nat)>)
    requires i < |s|
    ensures r.Some? ==> i < r.value.1 <= |s|
  {
    match Key(s, i, base16)
    case None => None
    case Some((k, after)) =>
      match Skip(s, after)
      case None => None
      case Some(j) => if Is(s, j, ':') then Some((k, j + 1)) else None
  }

  /** Past the white space, and the comma if there is one, before the next item or the closing bracket. */
  function Separator(s: string, i: nat, close: char): (r: Option<nat>)
    requires i <= |s|
    ensures r.Some? ==> i <= r.value <= |s|
  {
    match Skip(s, i)
    case None => None
    case Some(j) => if Is(s, j, ',') then Some(j + 1) else if Is(s, j, close) then Some(j) else None
  }

  /** One field at `i`: its name, its value and where the next one may start. */
  function Field(s: string, i: nat, base16: Base16): (r: Option<(Text, Js, nat)>)
    requires i < |s|
    ensures r.Some? ==> i < r.value.2 <= |s|
    decreases |s| - i, 0
  {
    match KeyColon(s, i, base16)
    case None => None
    case Some((k, colon)) =>
      match Value(s, colon, base16)
      case None => None
      case Some((v, after)) => (match Separator(s, after, '}') case None => None case Some(next) => Some((k, v, next)))
  }

  /** The fields of an object from `from` to past its brace, over the ones read before. */
  function Fields(s: string, from: nat, m: map<Text, Js>, base16: Base16): (r: Option<(map<Text, Js>, nat)>)
    requires from <= |s|
    ensures r.Some? ==> from < r.value.1 <= |s|
    decreases |s| - from, 1
  {
    match Skip(s, from)
    case None => None
    case Some(i) =>
      if i == |s| then None
      else if s[i] == '}' then Some((m, i + 1))
      else match Field(s, i, base16)
        case None => None
        case Some((k, v, next)) => Fields(s, next, m[k := v], base16)
  }

  // ---- the reader as the original runs it

  class Reader {
    const s: string
    const base16: Base16
    var i: nat

    constructor (s: string, base16: Base16, pos: nat)
      ensures this.s == s && this.base16 == base16 && i == pos
    {
      this.s, this.base16, i := s, base16, pos;
    }

    method Ws() returns (ok: bool)
      requires i <= |s|
      modifies this
      ensures i <= |s| && match Skip(s, old(i)) case None => !ok case Some(j) => ok && i == j
    {
      while i < |s|
        invariant i <= |s| && Skip(s, i) == Skip(s, old(i))
      {
        if Space(s[i]) {
          i := i + 1;
        } else if s[i] == '/' && Is(s, i + 1, '/') {
          var end := FindChar(s, i, '\n');
          i := if end == |s| then |s| else end + 1;
        } else if s[i] == '/' && Is(s, i + 1, '*') {
          var end := FindClose(s, i + 2);
          if end.None? {
            return false;
          }
          i := end.value + 2;
        } else {
          break;
        }
      }
      ok := true;
    }

    method ReadSeparator(close: char) returns (ok: bool)
      requires i <= |s|
      modifies this
      ensures i <= |s| && match Separator(s, old(i), close) case None => !ok case Some(j) => ok && i == j
    {
      ok := Ws();
      if ok && Is(s, i, ',') {
        i := i + 1;
      } else if ok && !Is(s, i, close) {
        ok := false;
      }
    }

    method ReadString() returns (r: Option<Text>)
      requires i < |s|
      modifies this
      ensures match Chars(s, old(i) + 1, s[old(i)], [], base16) case None => r == None case Some((t, end)) => r == Some(t) && i == end
    {
      var q := s[i];
      i := i + 1;
      var out: Text := [];
      while i < |s|
        invariant Chars(s, i, q, out, base16) == Chars(s, old(i) + 1, q, [], base16)
        decreases |s| - i
      {
        if s[i] == q {
          i := i + 1;
          return Some(out);
        }
        var c := OneChar(s, i, base16);
        if c.None? {
          return None;
        }
        i, out := c.value.1, out + [c.value.0];
      }
      r := None;
    }

    method ReadValue() returns (r: Option<Js>)
      requires i <= |s|
      modifies this
      ensures match Value(s, old(i), base16) case None => r == None case Some((v, end)) => r == Some(v) && i == end
      decreases |s| - i, 0
    {
      var ok := Ws();
      if !ok || i == |s| {
        return None;
      }
      if s[i] == '[' {
        var items := ReadArray();
        return if items.None? then None else Some(Arr(items.value));
      }
      if s[i] == '{' {
        var m := ReadObject();
        return if m.None? then None else Some(Obj(m.value));
      }
      if QuoteMark(s[i]) {
        var t := ReadString();
        return if t.None? then None else Some(Str(t.value));
      }
      var end := NumberEnd(s, i);
      if end.Some? {
        r := Some(Number(WithoutUnderscores(s[i..end.value])));
        i := end.value;
        return;
      }
      if !IdentStart(s[i]) {
        return None;
      }
      r := Word(s[i..IdentEnd(s, i)]);
      i := IdentEnd(s, i);
    }

    method ReadArray() returns (r: Option<seq<Js>>)
      requires i < |s|
      modifies this
      ensures match Items(s, old(i) + 1, [], base16) case None => r == None case Some((items, end)) => r == Some(items) && i == end
      decreases |s| - i - 1, 2
    {
      hide Skip, Separator;
      ghost var start := i;
      i := i + 1;
      var out: seq<Js> := [];
      while true
        invariant start < i <= |s|
        invariant Items(s, i, out, base16) == Items(s, start + 1, [], base16)
        decreases |s| - i
      {
        var ok := Ws();
        if !ok || i == |s| {
          return None;
        }
        if s[i] == ']' {
          i := i + 1;
          return Some(out);
        }
        var v := ReadValue();
        if v.None? {
          return None;
        }
        ok := ReadSeparator(']');
        if !ok {
          return None;
        }
        out := out + [v.value];
      }
    }

    /** A property name and its colon. */
    method ReadKey() returns (r: Option<Text>)
      requires i < |s|
      modifies this
      ensures match KeyColon(s, old(i), base16) case None => r == None case Some((k, end)) => r == Some(k) && i == end
    {
      if QuoteMark(s[i]) {
        r := ReadString();
        if r.None? {
          return;
        }
      } else if IdentStart(s[i]) {
        r := Some(Codes(s[i..IdentEnd(s, i)]));
        i := IdentEnd(s, i);
      } else {
        return None;
      }
      var ok := Ws();
      if !ok || !Is(s, i, ':') {
        return None;
      }
      i := i + 1;
    }

    /** A field and what separates it from the next. */
    method ReadField() returns (r: Option<(Text, Js)>)
      requires i < |s|
      modifies this
      ensures match Field(s, old(i), base16) case None => r == None case Some((k, v, next)) => r == Some((k, v)) && i == next
      decreases |s| - i - 1, 3
    {
      hide KeyColon, Separator;
      var k := ReadKey();
      if k.None? {
        return None;
      }
      var v := ReadValue();
      if v.None? {
        return None;
      }
      var ok := ReadSeparator('}');
      r := if ok then Some((k.value, v.value)) else None;
    }

    method ReadObject() returns (r: Option<map<Text, Js>>)
      requires i < |s|
      modifies this
      ensures match Fields(s, old(i) + 1, map[], base16) case None => r == None case Some((m, end)) => r == Some(m) && i == end
      decreases |s| - i - 1, 2
    {
      hide Skip, Field;
      ghost var start := i;
      i := i + 1;
      var out: map<Text, Js> := map[];
      while true
        invariant start < i <= |s|
        invariant Fields(s, i, out, base16) == Fields(s, start + 1, map[], base16)
        decreases |s| - i
      {
        var ok := Ws();
        if !ok || i == |s| {
          return None;
        }
        if s[i] == '}' {
          i := i + 1;
          return Some(out);
        }
        var f := ReadField();
        if f.None? {
          return None;
        }
        out := out[f.value.0 := f.value.1];
      }
    }
  }
}
