/** Finding the hook event in a payload that was cut off: a scan of the JSON text (RFC 8259, sections 4 and 7). */
module EventScan {
  import opened Prelude

  // ---- the scan as a function of the text

  function At(t: string, i: nat): Option<char> {
    if i < |t| then Some(t[i]) else None
  }

  predicate IsSpace(c: char) {
    c == ' ' || c == '\t' || c == '\n' || c == '\r' || c == 12 as char
  }

  function SkipSpace(t: string, i: nat): (r: nat)
    requires i <= |t|
    ensures i <= r <= |t|
    decreases |t| - i
  {
    if i < |t| && IsSpace(t[i]) then SkipSpace(t, i + 1) else i
  }

  /** The position after the closing quote, reading on from `j`; `esc` when the character before was a live backslash. */
  function Close(t: string, j: nat, esc: bool): (r: Option<nat>)
    ensures r.Some? ==> j < r.value <= |t|
    decreases |t| - j
  {
    if j >= |t| then None
    else if esc then Close(t, j + 1, false)
    else if t[j] == '\\' then Close(t, j + 1, true)
    else if t[j] == '"' then Some(j + 1)
    else Close(t, j + 1, false)
  }

  function StringEnd(t: string, i: nat): (r: Option<nat>)
    ensures r.Some? ==> i + 1 < r.value <= |t|
  {
    if At(t, i) != Some('"') then None else Close(t, i + 1, false)
  }

  /** The position of the comma or brace that ends a value, `depth` brackets deep; none when the text ends first. */
  function SkipFrom(t: string, i: nat, depth: nat): (r: Option<nat>)
    ensures r.Some? ==> i <= r.value < |t|
    decreases |t| - i
  {
    if i >= |t| then None
    else if t[i] == '"' then
      (match StringEnd(t, i) case None => None case Some(e) => SkipFrom(t, e, depth))
    else if t[i] == '{' || t[i] == '[' then SkipFrom(t, i + 1, depth + 1)
    else if (t[i] == '}' || t[i] == ']') && depth > 0 then SkipFrom(t, i + 1, depth - 1)
    else if (t[i] == ',' || t[i] == '}') && depth == 0 then Some(i)
    else SkipFrom(t, i + 1, depth)
  }

  function Hex(c: char): Option<nat> {
    if '0' <= c <= '9' then Some((c - '0') as nat)
    else if 'a' <= c <= 'f' then Some((c - 'a') as nat + 10)
    else if 'A' <= c <= 'F' then Some((c - 'A') as nat + 10)
    else None
  }

  /** The four hex digits at `i`. */
  function Hex4(t: string, i: nat): (r: Option<nat>)
    ensures r.Some? ==> i + 4 <= |t| && r.value < 0x10000
  {
    if i + 4 > |t| then None else
      match (Hex(t[i]), Hex(t[i + 1]), Hex(t[i + 2]), Hex(t[i + 3]))
      case (Some(a), Some(b), Some(c), Some(d)) =>
        if a < 16 && b < 16 && c < 16 && d < 16 then Some(((a * 16 + b) * 16 + c) * 16 + d) else None
      case _ => None
  }

  function Simple(c: char): Option<char> {
    if c == '"' || c == '\\' || c == '/' then Some(c)
    else if c == 'b' then Some(8 as char)
    else if c == 'f' then Some(12 as char)
    else if c == 'n' then Some('\n')
    else if c == 'r' then Some('\r')
    else if c == 't' then Some('\t')
    else None
  }

  /** The character at `i` of a string's inside, and where the next one starts; none when the escape or the character is not allowed. */
  function OneChar(t: string, i: nat): (r: Option<(char, nat)>)
    requires i < |t|
    ensures r.Some? ==> i < r.value.1 <= |t|
  {
    if t[i] != '\\' then
      if t[i] < ' ' || t[i] == '"' then None else Some((t[i], i + 1))
    else if i + 1 >= |t| then None
    else if t[i + 1] != 'u' then
      (match Simple(t[i + 1]) case None => None case Some(c) => Some((c, i + 2)))
    else match Hex4(t, i + 2)
      case None => None
      case Some(n) =>
        if n < 0xD800 || n >= 0xE000 then Some((n as char, i + 6))
        else if n < 0xDC00 && i + 7 < |t| && t[i + 6] == '\\' && t[i + 7] == 'u' then
          match Hex4(t, i + 8)
          case None => None
          case Some(m) =>
            if 0xDC00 <= m < 0xE000 then Some(((0x10000 + (n - 0xD800) * 0x400 + (m - 0xDC00)) as char, i + 12)) else None
        else None
  }

  function Unescape(t: string, i: nat): Option<string>
    requires i <= |t|
    decreases |t| - i
  {
    if i == |t| then Some("") else
      match OneChar(t, i)
      case None => None
      case Some((c, next)) =>
        match Unescape(t, next)
        case None => None
        case Some(rest) => Some([c] + rest)
  }

  /** A string literal, quotes and all, as the text it stands for. */
  function Decode(lit: string): Option<string> {
    if |lit| < 2 || lit[0] != '"' || lit[|lit| - 1] != '"' then None else Unescape(lit[1..|lit| - 1], 0)
  }

  function PastComma(t: string, i: nat): nat {
    if At(t, i) == Some(',') then i + 1 else i
  }

  type Found = seq<(string, string)>

  /** One step of the scan: the end of it, or where it goes on and the event field it passed, if it was one. */
  datatype FieldStep = Stop | Go(next: nat, pair: Found)

  function StepAt(t: string, from: nat, keys: seq<string>): (r: FieldStep)
    requires from <= |t|
    ensures r.Go? ==> from < r.next <= |t|
  {
    var i := SkipSpace(t, from);
    if At(t, i) == Some('}') then Stop
    else match StringEnd(t, i)
      case None => Stop
      case Some(keyEnd) =>
        match Decode(t[i..keyEnd])
        case None => Stop
        case Some(key) =>
          var colon := SkipSpace(t, keyEnd);
          if At(t, colon) != Some(':') then Stop else
            var v := SkipSpace(t, colon + 1);
            if key in keys then
              match StringEnd(t, v)
              case None => Stop
              case Some(valueEnd) =>
                match Decode(t[v..valueEnd])
                case None => Stop
                case Some(value) => Go(PastComma(t, valueEnd), [(key, value)])
            else
              match SkipFrom(t, v, 0)
              case None => Stop
              case Some(end) => Go(PastComma(t, end), [])
  }

  /** The event fields collected from position `i` on, after the ones found before. */
  function Scan(t: string, i: nat, keys: seq<string>, found: Found): Found
    requires i <= |t|
    decreases |t| - i
  {
    match StepAt(t, i, keys)
    case Stop => found
    case Go(next, pair) => Scan(t, next, keys, found + pair)
  }

  function FirstOf(found: Found, key: string): Option<string> {
    if found == [] then None else if found[0].0 == key then Some(found[0].1) else FirstOf(found[1..], key)
  }

  /** The value of the first key, in order of preference, that was found. */
  function Best(keys: seq<string>, found: Found): Option<string> {
    if keys == [] then None
    else match FirstOf(found, keys[0])
      case Some(v) => Some(v)
      case None => Best(keys[1..], found)
  }

  function EventOfPrefix(t: string, keys: seq<string>): Option<string> {
    var i := SkipSpace(t, 0);
    if At(t, i) != Some('{') then None else Best(keys, Scan(t, i + 1, keys, []))
  }

  // ---- the scan as the original runs it

  method RunSkipSpace(t: string, from: nat) returns (i: nat)
    requires from <= |t|
    ensures i == SkipSpace(t, from)
  {
    i := from;
    while i < |t| && IsSpace(t[i])
      invariant from <= i <= |t|
      invariant SkipSpace(t, i) == SkipSpace(t, from)
    {
      i := i + 1;
    }
  }

  method RunStringEnd(t: string, i: nat) returns (r: Option<nat>)
    ensures r == StringEnd(t, i)
  {
    if At(t, i) != Some('"') {
      return None;
    }
    var esc := false;
    for j := i + 1 to |t|
      invariant Close(t, j, esc) == Close(t, i + 1, false)
    {
      if esc {
        esc := false;
      } else if t[j] == '\\' {
        esc := true;
      } else if t[j] == '"' {
        return Some(j + 1);
      }
    }
    r := None;
  }

  method RunSkipValue(t: string, from: nat) returns (r: Option<nat>)
    ensures r == SkipFrom(t, from, 0)
  {
    var i, depth := from, 0;
    while i < |t|
      invariant SkipFrom(t, i, depth) == SkipFrom(t, from, 0)
    {
      if t[i] == '"' {
        var e := RunStringEnd(t, i);
        if e.None? {
          return None;
        }
        i := e.value;
      } else if t[i] == '{' || t[i] == '[' {
        depth, i := depth + 1, i + 1;
      } else if (t[i] == '}' || t[i] == ']') && depth > 0 {
        depth, i := depth - 1, i + 1;
      } else if (t[i] == ',' || t[i] == '}') && depth == 0 {
        return Some(i);
      } else {
        i := i + 1;
      }
    }
    r := None;
  }

  method RunField(t: string, from: nat, keys: seq<string>) returns (r: FieldStep)
    requires from <= |t|
    ensures r == StepAt(t, from, keys)
  {
    r := Stop;
    var i := RunSkipSpace(t, from);
    if At(t, i) == Some('}') {
      return;
    }
    var keyEnd := RunStringEnd(t, i);
    if keyEnd.None? {
      return;
    }
    var key := Decode(t[i..keyEnd.value]);
    if key.None? {
      return;
    }
    i := RunSkipSpace(t, keyEnd.value);
    if At(t, i) != Some(':') {
      return;
    }
    i := RunSkipSpace(t, i + 1);
    if key.value in keys {
      var valueEnd := RunStringEnd(t, i);
      if valueEnd.None? {
        return;
      }
      var value := Decode(t[i..valueEnd.value]);
      if value.None? {
        return;
      }
      r := Go(PastComma(t, valueEnd.value), [(key.value, value.value)]);
    } else {
      var end := RunSkipValue(t, i);
      if end.None? {
        return;
      }
      r := Go(PastComma(t, end.value), []);
    }
  }

  method RunEventOfPrefix(t: string, keys: seq<string>) returns (event: Option<string>)
    ensures event == EventOfPrefix(t, keys)
  {
    var i := RunSkipSpace(t, 0);
    if At(t, i) != Some('{') {
      return None;
    }
    i := i + 1;
    ghost var all := Scan(t, i, keys, []);
    var found: Found := [];
    while true
      invariant i <= |t| && Scan(t, i, keys, found) == all
      decreases |t| - i
    {
      var step := RunField(t, i, keys);
      match step {
        case Stop => break;
        case Go(next, pair) => i, found := next, found + pair;
      }
    }
    event := Best(keys, found);
  }
}
