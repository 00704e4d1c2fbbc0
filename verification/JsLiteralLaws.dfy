/**
 Every way of writing a literal is read back as the literal, up to exactly its end. A way of writing it is a tree of its own: the tokens
 of the literal, the form of every character of a string, and a gap of white space and comments between any two tokens; the last item of
 an array or an object may be followed by a comma. The reader is followed over such a text from place to place, each lemma saying that
 one piece stands there and what the reader makes of it.
 */
module JsLiteralLaws {
  import opened Prelude
  import opened Texts
  import opened JsLiteral
  import opened JsNumbers

  // ---- ways of writing a literal

  /** What may stand between tokens. */
  datatype Piece = Blank(c: char) | LineNote(t: string) | BlockNote(t: string)

  type Gap = seq<Piece>

  /** One character of a string as written. */
  datatype CharForm = Plain(c: char) | Named(i: nat) | Escaped(c: char) | Hex2(digits: string) | Hex4(digits: string)

  /** The letters that stand for another character after a backslash, and the code of that character. */
  function NamedEscapes(): (r: seq<(char, nat)>)
    ensures |r| == 7
  {
    [('n', 10), ('t', 9), ('r', 13), ('b', 8), ('f', 12), ('v', 11), ('0', 0)]
  }

  datatype Quoted = Quoted(q: char, chars: seq<CharForm>)

  datatype KeyForm = Name(w: string) | QuotedKey(s: Quoted)

  datatype Doc =
    | DNumber(n: NumberForm)
    | DTrue
    | DFalse
    | DNull
    | DUndefined
    | DStr(s: Quoted)
    | DArr(items: seq<Item>, end: Gap)
    | DObj(fields: seq<FieldForm>, end: Gap)

  /** An item with what stands before and after it; the last one may leave out its comma. */
  datatype Item = Item(before: Gap, doc: Doc, after: Gap, comma: bool)

  datatype FieldForm = FieldForm(before: Gap, key: KeyForm, afterKey: Gap, item: Item)

  function PieceText(p: Piece): string {
    match p
    case Blank(c) => [c]
    case LineNote(t) => ['/', '/'] + t + ['\n']
    case BlockNote(t) => ['/', '*'] + t + ['*', '/']
  }

  function GapText(g: Gap): string {
    if g == [] then "" else PieceText(g[0]) + GapText(g[1..])
  }

  function CharText(c: CharForm): string {
    match c
    case Plain(c) => [c]
    case Named(i) => if i < 7 then ['\\', NamedEscapes()[i].0] else ""
    case Escaped(c) => ['\\', c]
    case Hex2(d) => ['\\', 'x'] + d
    case Hex4(d) => ['\\', 'u'] + d
  }

  function CharsText(cs: seq<CharForm>): string {
    if cs == [] then "" else CharText(cs[0]) + CharsText(cs[1..])
  }

  function QuotedText(s: Quoted): string {
    [s.q] + (CharsText(s.chars) + [s.q])
  }

  function KeyText(k: KeyForm): string {
    match k
    case Name(w) => w
    case QuotedKey(s) => QuotedText(s)
  }

  function DocText(d: Doc): string
    decreases d, 0
  {
    match d
    case DNumber(n) => NumberText(n)
    case DTrue => "true"
    case DFalse => "false"
    case DNull => "null"
    case DUndefined => "undefined"
    case DStr(s) => QuotedText(s)
    case DArr(items, end) => ['['] + (ItemsText(items) + (GapText(end) + [']']))
    case DObj(fields, end) => ['{'] + (FieldsText(fields) + (GapText(end) + ['}']))
  }

  /** An item from the end of the gap before it. */
  function ItemText(x: Item, last: bool): string
    decreases x, 1
  {
    GapText(x.before) + (DocText(x.doc) + (GapText(x.after) + (if last && !x.comma then "" else ",")))
  }

  function ItemsText(items: seq<Item>): string
    decreases items, 2
  {
    if items == [] then "" else ItemText(items[0], |items| == 1) + ItemsText(items[1..])
  }

  function FieldText(f: FieldForm, last: bool): string
    decreases f, 2
  {
    GapText(f.before) + (KeyText(f.key) + (GapText(f.afterKey) + ([':'] + ItemText(f.item, last))))
  }

  function FieldsText(fields: seq<FieldForm>): string
    decreases fields, 3
  {
    if fields == [] then "" else FieldText(fields[0], |fields| == 1) + FieldsText(fields[1..])
  }

  // ---- what they stand for

  function HexDigit(c: char): Option<nat> {
    if '0' <= c <= '9' then Some(c as nat - '0' as nat)
    else if 'a' <= c <= 'f' then Some(c as nat - 'a' as nat + 10)
    else if 'A' <= c <= 'F' then Some(c as nat - 'A' as nat + 10)
    else None
  }

  function HexValue(d: string): Option<nat> {
    if d == "" then Some(0)
    else match (HexValue(d[..|d| - 1]), HexDigit(d[|d| - 1]))
      case (Some(n), Some(k)) => Some(n * 16 + k)
      case _ => None
  }

  function CharValue(c: CharForm): nat {
    match c
    case Plain(c) => c as nat
    case Named(i) => if i < 7 then NamedEscapes()[i].1 else 0
    case Escaped(c) => c as nat
    case Hex2(d) => (match HexValue(d) case Some(n) => n case None => 0)
    case Hex4(d) => (match HexValue(d) case Some(n) => n case None => 0)
  }

  function CharsValue(cs: seq<CharForm>): Text {
    if cs == [] then [] else [CharValue(cs[0])] + CharsValue(cs[1..])
  }

  function KeyValue(k: KeyForm): Text {
    match k
    case Name(w) => Codes(w)
    case QuotedKey(s) => CharsValue(s.chars)
  }

  function Meaning(d: Doc): Js {
    match d
    case DNumber(n) => Number(PlainText(n))
    case DTrue => True
    case DFalse => False
    case DNull => Nothing
    case DUndefined => Nothing
    case DStr(s) => Str(CharsValue(s.chars))
    case DArr(items, _) => Arr(Meanings(items))
    case DObj(fields, _) => Obj(FieldMeanings(fields, map[]))
  }

  function Meanings(items: seq<Item>): seq<Js> {
    if items == [] then [] else
      assert items[0].doc < items[0];
      [Meaning(items[0].doc)] + Meanings(items[1..])
  }

  /** A later field of a name replaces an earlier one. */
  function FieldMeanings(fields: seq<FieldForm>, m: map<Text, Js>): map<Text, Js> {
    if fields == [] then m else
      assert fields[0].item.doc < fields[0].item < fields[0];
      FieldMeanings(fields[1..], m[KeyValue(fields[0].key) := Meaning(fields[0].item.doc)])
  }

  // ---- which are well written

  predicate NoteEnds(t: string) {
    forall k :: 0 <= k < |t| ==> !(t[k] == '*' && (t + ['*', '/'])[k + 1] == '/')
  }

  predicate GoodPiece(p: Piece) {
    match p
    case Blank(c) => c as int in {0x20, 0x09, 0x0D, 0x0A}
    case LineNote(t) => '\n' !in t
    case BlockNote(t) => NoteEnds(t)
  }

  predicate GoodGap(g: Gap) {
    forall i :: 0 <= i < |g| ==> GoodPiece(g[i])
  }

  predicate GoodChar(c: CharForm, q: char) {
    match c
    case Plain(c) => c != q && c != '\n' && c != '\\'
    case Named(i) => i < 7
    case Escaped(c) => c != 'u' && c != 'x' && forall i :: 0 <= i < 7 ==> NamedEscapes()[i].0 != c
    case Hex2(d) => |d| == 2 && HexValue(d).Some?
    case Hex4(d) => |d| == 4 && HexValue(d).Some?
  }

  predicate GoodQuoted(s: Quoted) {
    s.q as int in {0x22, 0x27} && forall i :: 0 <= i < |s.chars| ==> GoodChar(s.chars[i], s.q)
  }

  /** A Latin letter, an underscore or a dollar sign. */
  predicate Letter(c: char) {
    0x41 <= c as int <= 0x5A || 0x61 <= c as int <= 0x7A || c as int == 0x5F || c as int == 0x24
  }

  predicate GoodName(w: string) {
    w != "" && Letter(w[0]) && forall k :: 0 <= k < |w| ==> Letter(w[k]) || 0x30 <= w[k] as int <= 0x39
  }

  predicate GoodKey(k: KeyForm) {
    match k
    case Name(w) => GoodName(w)
    case QuotedKey(s) => GoodQuoted(s)
  }

  predicate Good(d: Doc) {
    match d
    case DNumber(n) => GoodNumber(n)
    case DTrue => true
    case DFalse => true
    case DNull => true
    case DUndefined => true
    case DStr(s) => GoodQuoted(s)
    case DArr(items, end) => GoodGap(end) && forall i :: 0 <= i < |items| ==> GoodItem(items[i])
    case DObj(fields, end) => GoodGap(end) && forall i :: 0 <= i < |fields| ==> GoodField(fields[i])
  }

  predicate GoodItem(x: Item) {
    GoodGap(x.before) && Good(x.doc) && GoodGap(x.after)
  }

  predicate GoodField(f: FieldForm) {
    GoodGap(f.before) && GoodKey(f.key) && GoodGap(f.afterKey) && GoodItem(f.item)
  }

  /** Base-16 reading that gets hexadecimal digits right. */
  ghost predicate ReadsHex(base16: Base16) {
    forall d: string :: d != "" && HexValue(d).Some? ==> base16(d) == HexValue(d)
  }

  /** A character that could be more of a number or a name. */
  predicate Extends(c: char) {
    IdentPart(c) || c == '.'
  }

  /** Nothing at `e` makes a token that ends there longer. */
  predicate Apart(f: string, e: nat) {
    e < |f| ==> !Extends(f[e])
  }

  // ---- gaps

  lemma {:induction false} FindCharHere(f: string, i: nat, t: string, c: char)
    requires Here(f, i, t + [c]) && c !in t
    ensures FindChar(f, i, c) == i + |t|
    decreases |t|
  {
    if t == "" {
      HereChar(f, i, t + [c], 0);
    } else {
      HereChar(f, i, t + [c], 0);
      assert t + [c] == [t[0]] + (t[1..] + [c]);
      HereSplit(f, i, [t[0]], t[1..] + [c]);
      FindCharHere(f, i + 1, t[1..], c);
    }
  }

  lemma {:induction false} FindCloseHere(f: string, i: nat, t: string)
    requires Here(f, i, t + ['*', '/']) && NoteEnds(t)
    ensures FindClose(f, i) == Some(i + |t|)
    decreases |t|
  {
    var all := t + ['*', '/'];
    HereChar(f, i, all, 0);
    HereChar(f, i, all, 1);
    if t != "" {
      assert all == [t[0]] + (t[1..] + ['*', '/']);
      HereSplit(f, i, [t[0]], t[1..] + ['*', '/']);
      assert forall k :: 0 <= k < |t| - 1 ==> t[1..][k] == t[k + 1] && (t[1..] + ['*', '/'])[k + 1] == all[k + 2];
      FindCloseHere(f, i + 1, t[1..]);
    }
  }

  lemma SkipLine(f: string, i: nat, t: string)
    requires Here(f, i, PieceText(LineNote(t))) && GoodPiece(LineNote(t))
    ensures Skip(f, i) == Skip(f, i + |PieceText(LineNote(t))|)
  {
    var p := PieceText(LineNote(t));
    HereChar(f, i, p, 0);
    HereChar(f, i, p, 1);
    assert p == (['/', '/'] + t) + ['\n'];
    FindCharHere(f, i, ['/', '/'] + t, '\n');
  }

  lemma SkipBlock(f: string, i: nat, t: string)
    requires Here(f, i, PieceText(BlockNote(t))) && GoodPiece(BlockNote(t))
    ensures Skip(f, i) == Skip(f, i + |PieceText(BlockNote(t))|)
  {
    var p := PieceText(BlockNote(t));
    HereChar(f, i, p, 0);
    HereChar(f, i, p, 1);
    assert p == ['/', '*'] + (t + ['*', '/']);
    HereSplit(f, i, ['/', '*'], t + ['*', '/']);
    FindCloseHere(f, i + 2, t);
  }

  lemma SkipPiece(f: string, i: nat, p: Piece)
    requires Here(f, i, PieceText(p)) && GoodPiece(p)
    ensures Skip(f, i) == Skip(f, i + |PieceText(p)|)
  {
    match p
    case Blank(c) => HereChar(f, i, PieceText(p), 0);
    case LineNote(t) => SkipLine(f, i, t);
    case BlockNote(t) => SkipBlock(f, i, t);
  }

  /** A gap is passed over whole. */
  lemma {:induction false} SkipGap(f: string, i: nat, g: Gap)
    requires Here(f, i, GapText(g)) && GoodGap(g)
    ensures Skip(f, i) == Skip(f, i + |GapText(g)|)
    decreases |g|
  {
    hide Skip, PieceText, GoodPiece;
    if g != [] {
      HereSplit(f, i, PieceText(g[0]), GapText(g[1..]));
      SkipPiece(f, i, g[0]);
      SkipGap(f, i + |PieceText(g[0])|, g[1..]);
    }
  }

  /** What starts a token: nothing that a gap could start with. */
  predicate TokenAt(f: string, i: nat) {
    i < |f| && !Space(f[i]) && f[i] != '/'
  }

  lemma SkipToken(f: string, i: nat)
    requires TokenAt(f, i)
    ensures Skip(f, i) == Some(i)
  {
  }

  /** A gap and then a token: the skip stops at the token. */
  lemma GapThenToken(f: string, i: nat, g: Gap)
    requires Here(f, i, GapText(g)) && GoodGap(g) && TokenAt(f, i + |GapText(g)|)
    ensures Skip(f, i) == Some(i + |GapText(g)|)
  {
    SkipGap(f, i, g);
    SkipToken(f, i + |GapText(g)|);
  }

  /** A gap, or what follows an empty one, makes no token before it longer. */
  lemma GapIsApart(f: string, i: nat, g: Gap)
    requires Here(f, i, GapText(g)) && GoodGap(g) && Apart(f, i + |GapText(g)|)
    ensures Apart(f, i)
  {
    hide PieceText, Extends;
    if g != [] {
      PieceStart(g[0]);
      HereSplit(f, i, PieceText(g[0]), GapText(g[1..]));
      HereChar(f, i, PieceText(g[0]), 0);
    }
  }

  lemma PieceStart(p: Piece)
    requires GoodPiece(p)
    ensures PieceText(p) != "" && !Extends(PieceText(p)[0])
  {
  }

  // ---- tokens

  lemma {:induction false} IdentEndHere(f: string, i: nat, w: string, k: nat)
    requires Here(f, i, w) && k <= |w| && Apart(f, i + |w|)
    requires IdentEnd(w, k) == |w|
    ensures IdentEnd(f, i + k) == i + |w|
    decreases |w| - k
  {
    if k < |w| {
      HereChar(f, i, w, k);
      IdentEndHere(f, i, w, k + 1);
    }
  }

  lemma {:induction false} DigitsEndHere(f: string, i: nat, w: string, k: nat, u: bool)
    requires Here(f, i, w) && k <= |w| && Apart(f, i + |w|)
    ensures DigitsEnd(f, i + k, u) == i + DigitsEnd(w, k, u)
    decreases |w| - k
  {
    if k < |w| {
      HereChar(f, i, w, k);
      DigitsEndHere(f, i, w, k + 1, u);
    }
  }

  lemma IsHere(f: string, i: nat, w: string, k: nat, c: char)
    requires Here(f, i, w) && k <= |w| && Apart(f, i + |w|) && (Extends(c) || k < |w|)
    ensures Is(f, i + k, c) == Is(w, k, c)
  {
    if k < |w| { HereChar(f, i, w, k); }
  }

  lemma {:induction false} WholeEndHere(f: string, i: nat, w: string, k: nat)
    requires Here(f, i, w) && k <= |w| && Apart(f, i + |w|)
    ensures WholeEnd(f, i + k) == match WholeEnd(w, k) case None => None case Some(j) => Some(i + j)
  {
    if k < |w| {
      HereChar(f, i, w, k);
      DigitsEndHere(f, i, w, k + 1, true);
    }
  }

  lemma FractionEndHere(f: string, i: nat, w: string, k: nat)
    requires Here(f, i, w) && k <= |w| && Apart(f, i + |w|)
    ensures FractionEnd(f, i + k) == i + FractionEnd(w, k)
  {
    IsHere(f, i, w, k, '.');
    if k < |w| { DigitsEndHere(f, i, w, k + 1, true); }
  }

  /** An exponent ends where it does in the number alone, if the number does not end within one. */
  lemma ExponentEndHere(f: string, i: nat, w: string, k: nat)
    requires Here(f, i, w) && k <= |w| && Apart(f, i + |w|) && ExponentEnd(w, k) == |w|
    ensures ExponentEnd(f, i + k) == i + |w|
  {
    IsHere(f, i, w, k, 'e');
    IsHere(f, i, w, k, 'E');
    if k < |w| {
      var d := if Is(w, k + 1, '+') || Is(w, k + 1, '-') then k + 2 else k + 1;
      IsHere(f, i, w, k + 1, '+');
      IsHere(f, i, w, k + 1, '-');
      DigitsEndHere(f, i, w, d, false);
    }
  }

  lemma NumberEndHere(f: string, i: nat, w: string)
    requires Here(f, i, w) && Apart(f, i + |w|) && NumberEnd(w, 0) == Some(|w|)
    ensures NumberEnd(f, i) == Some(i + |w|)
  {
    IsHere(f, i, w, 0, '-');
    var k := if Is(w, 0, '-') then 1 else 0;
    WholeEndHere(f, i, w, k);
    var j := WholeEnd(w, k).value;
    FractionEndHere(f, i, w, j);
    ExponentEndHere(f, i, w, FractionEnd(w, j));
  }

  // ---- strings

  lemma NamedIsEscape(i: nat)
    requires i < 7
    ensures var (c, code) := NamedEscapes()[i]; Escape(c) == code && c != 'u' && c != 'x'
  {
  }

  lemma OthersStay(c: char)
    requires forall i :: 0 <= i < 7 ==> NamedEscapes()[i].0 != c
    ensures Escape(c) == c as nat
  {
    var e := NamedEscapes();
    assert e[0].0 != c && e[1].0 != c && e[2].0 != c && e[3].0 != c && e[4].0 != c && e[5].0 != c && e[6].0 != c;
  }

  lemma CharHere(f: string, i: nat, c: CharForm, q: char, base16: Base16)
    requires Here(f, i, CharText(c)) && GoodChar(c, q) && QuoteMark(q) && ReadsHex(base16)
    ensures CharText(c) != "" && f[i] != q && OneChar(f, i, base16) == Some((CharValue(c), i + |CharText(c)|))
  {
    HereChar(f, i, CharText(c), 0);
    if !c.Plain? { HereChar(f, i, CharText(c), 1); }
    if c.Named? {
      NamedIsEscape(c.i);
    }
    if c.Escaped? {
      OthersStay(c.c);
    }
    if c.Hex2? || c.Hex4? {
      HereSplit(f, i, CharText(c)[..2], c.digits);
      assert CharText(c) == CharText(c)[..2] + c.digits;
    }
  }

  lemma {:induction false} CharsHere(f: string, i: nat, cs: seq<CharForm>, q: char, before: Text, base16: Base16)
    requires Here(f, i, CharsText(cs) + [q]) && QuoteMark(q) && ReadsHex(base16) && forall k :: 0 <= k < |cs| ==> GoodChar(cs[k], q)
    ensures Chars(f, i, q, before, base16) == Some((before + CharsValue(cs), i + |CharsText(cs)| + 1))
    decreases |cs|
  {
    hide CharText, CharValue, GoodChar, OneChar, ReadsHex, QuoteMark;
    if cs == [] {
      HereChar(f, i, CharsText(cs) + [q], 0);
      assert before + [] == before;
    } else {
      var c, rest := CharText(cs[0]), CharsText(cs[1..]) + [q];
      assert CharsText(cs) + [q] == c + rest;
      HereSplit(f, i, c, rest);
      CharHere(f, i, cs[0], q, base16);
      CharsHere(f, i + |c|, cs[1..], q, before + [CharValue(cs[0])], base16);
      assert (before + [CharValue(cs[0])]) + CharsValue(cs[1..]) == before + CharsValue(cs);
    }
  }

  lemma QuotedHere(f: string, i: nat, s: Quoted, base16: Base16)
    requires Here(f, i, QuotedText(s)) && GoodQuoted(s) && ReadsHex(base16)
    ensures f[i] == s.q && Chars(f, i + 1, s.q, [], base16) == Some((CharsValue(s.chars), i + |QuotedText(s)|))
  {
    hide ReadsHex, GoodChar, CharsText, CharsValue, Chars, Here;
    HereSplit(f, i, [s.q], CharsText(s.chars) + [s.q]);
    HereChar(f, i, [s.q], 0);
    CharsHere(f, i + 1, s.chars, s.q, [], base16);
    assert [] + CharsValue(s.chars) == CharsValue(s.chars);
    assert |QuotedText(s)| == |CharsText(s.chars)| + 2;
  }

  // ---- names and property names

  lemma NameHere(f: string, i: nat, w: string)
    requires Here(f, i, w) && Apart(f, i + |w|) && GoodName(w)
    ensures IdentStart(f[i]) && IdentEnd(f, i) == i + |w| && f[i..IdentEnd(f, i)] == w
  {
    HereChar(f, i, w, 0);
    AllPartsEnd(w, 0);
    IdentEndHere(f, i, w, 0);
  }

  lemma KeyHere(f: string, i: nat, k: KeyForm, base16: Base16)
    requires Here(f, i, KeyText(k)) && GoodKey(k) && Apart(f, i + |KeyText(k)|) && ReadsHex(base16)
    ensures KeyText(k) != "" && TokenAt(f, i) && f[i] != '}' && Key(f, i, base16) == Some((KeyValue(k), i + |KeyText(k)|))
  {
    hide ReadsHex, IdentEnd, Chars;
    match k
    case Name(w) => NameHere(f, i, w);
    case QuotedKey(s) => QuotedHere(f, i, s, base16);
  }

  /** A property name, a gap and a colon. */
  lemma KeyColonHere(f: string, i: nat, k: KeyForm, g: Gap, base16: Base16)
    requires Here(f, i, KeyText(k) + (GapText(g) + [':'])) && GoodKey(k) && GoodGap(g) && ReadsHex(base16)
    ensures TokenAt(f, i) && f[i] != '}'
    ensures KeyColon(f, i, base16) == Some((KeyValue(k), i + |KeyText(k)| + |GapText(g)| + 1))
  {
    hide KeyText, GapText, GoodGap, GoodKey, KeyValue, ReadsHex, Skip, Key;
    var a := i + |KeyText(k)|;
    HereSplit(f, i, KeyText(k), GapText(g) + [':']);
    HereSplit(f, a, GapText(g), [':']);
    HereChar(f, a + |GapText(g)|, [':'], 0);
    GapThenToken(f, a, g);
    GapIsApart(f, a, g);
    KeyHere(f, i, k, base16);
  }

  // ---- values

  /** A value stands from `i` to `e`: it is read as what it means wherever its reading starts in the gap before it. */
  ghost predicate Reads(f: string, i: nat, d: Doc, e: nat, base16: Base16) {
    && i < e <= |f| && TokenAt(f, i) && f[i] !in {',', ']', '}'}
    && Value(f, i, base16) == Some((Meaning(d), e))
  }

  lemma ValueFromGap(f: string, from: nat, i: nat, base16: Base16)
    requires from <= i <= |f| && Skip(f, from) == Some(i) == Skip(f, i)
    ensures Value(f, from, base16) == Value(f, i, base16)
  {
    hide Skip, Items, Fields, Chars, NumberEnd;
  }

  lemma {:induction false} ValueHere(f: string, i: nat, d: Doc, base16: Base16)
    requires Here(f, i, DocText(d)) && Good(d) && Apart(f, i + |DocText(d)|) && ReadsHex(base16)
    ensures Reads(f, i, d, i + |DocText(d)|, base16)
    decreases d, 4
  {
    match d
    case DNumber(_) => NumberHere(f, i, d, base16);
    case DTrue => WordHere(f, i, "true", True);
    case DFalse => WordHere(f, i, "false", False);
    case DNull => WordHere(f, i, "null", Nothing);
    case DUndefined => WordHere(f, i, "undefined", Nothing);
    case DStr(_) => StringHere(f, i, d, base16);
    case DArr(_, _) => ArrayHere(f, i, d, base16);
    case DObj(_, _) => ObjectHere(f, i, d, base16);
  }

  lemma NumberStart(w: string)
    requires NumberEnd(w, 0) == Some(|w|)
    ensures w != "" && (w[0] == '-' || Digit(w[0]))
  {
  }

  lemma NumberHere(f: string, i: nat, d: Doc, base16: Base16)
    requires d.DNumber? && Here(f, i, DocText(d)) && Good(d) && Apart(f, i + |DocText(d)|)
    ensures Reads(f, i, d, i + |DocText(d)|, base16)
  {
    hide NumberEnd, NumberText, PlainText, WithoutUnderscores, GoodNumber, Apart, Items, Fields, Chars;
    NumberIsPassed(d.n);
    NumberWithout(d.n);
    NumberStart(NumberText(d.n));
    HereChar(f, i, NumberText(d.n), 0);
    NumberEndHere(f, i, NumberText(d.n));
    SkipToken(f, i);
  }

  lemma WordIsNoNumber(f: string, i: nat)
    requires i < |f| && IdentStart(f[i])
    ensures NumberEnd(f, i) == None && TokenAt(f, i) && !QuoteMark(f[i]) && f[i] !in {'[', '{', ',', ']', '}'}
  {
  }

  /** The words that stand for a value. */
  predicate Stands(w: string, v: Js) {
    (w == "true" && v == True) || (w == "false" && v == False) || ((w == "null" || w == "undefined") && v == Nothing)
  }

  lemma WordHere(f: string, i: nat, w: string, v: Js)
    requires Stands(w, v) && Here(f, i, w) && Apart(f, i + |w|)
    ensures i < |f| && TokenAt(f, i) && f[i] !in {',', ']', '}'}
    ensures forall base16: Base16 :: Value(f, i, base16) == Some((v, i + |w|))
  {
    WordIsName(w, v);
    hide NumberEnd, IdentEnd, Apart, Items, Fields, Chars, IdentStart, Word, GoodName, Stands;
    NameHere(f, i, w);
    WordIsNoNumber(f, i);
    SkipToken(f, i);
  }

  lemma WordIsName(w: string, v: Js)
    requires Stands(w, v)
    ensures GoodName(w) && Word(w) == Some(v)
  {
  }

  lemma StringHere(f: string, i: nat, d: Doc, base16: Base16)
    requires d.DStr? && Here(f, i, DocText(d)) && Good(d) && ReadsHex(base16)
    ensures Reads(f, i, d, i + |DocText(d)|, base16)
  {
    hide NumberEnd, Items, Fields, Chars, CharsValue, QuotedText, ReadsHex;
    QuotedHere(f, i, d.s, base16);
    SkipToken(f, i);
  }

  lemma {:induction false} ArrayHere(f: string, i: nat, d: Doc, base16: Base16)
    requires d.DArr? && Here(f, i, DocText(d)) && Good(d) && ReadsHex(base16)
    ensures Reads(f, i, d, i + |DocText(d)|, base16)
    decreases d, 3
  {
    hide NumberEnd, Fields, Chars, Items, ItemsText, GapText, Meanings, ReadsHex, GoodItem, GoodGap;
    var rest := ItemsText(d.items) + (GapText(d.end) + [']']);
    HereSplit(f, i, ['['], rest);
    HereChar(f, i, ['['], 0);
    SkipToken(f, i);
    ItemsHere(f, i + 1, d.items, d.end, [], base16);
    assert [] + Meanings(d.items) == Meanings(d.items);
  }

  lemma {:induction false} ObjectHere(f: string, i: nat, d: Doc, base16: Base16)
    requires d.DObj? && Here(f, i, DocText(d)) && Good(d) && ReadsHex(base16)
    ensures Reads(f, i, d, i + |DocText(d)|, base16)
    decreases d, 3
  {
    hide NumberEnd, Fields, Chars, Items, FieldsText, GapText, FieldMeanings, ReadsHex, GoodField, GoodGap;
    var rest := FieldsText(d.fields) + (GapText(d.end) + ['}']);
    HereSplit(f, i, ['{'], rest);
    HereChar(f, i, ['{'], 0);
    SkipToken(f, i);
    FieldsHere(f, i + 1, d.fields, d.end, map[], base16);
  }

  // ---- an item and what follows it

  /** An item read from `i`, and what separates it from the next, up to `next`. */
  ghost predicate ReadsItem(f: string, i: nat, x: Item, next: nat, close: char, base16: Base16) {
    && Here(f, i, GapText(x.before))
    && var at := i + |GapText(x.before)|;
    && Skip(f, i) == Some(at) && Reads(f, at, x.doc, at + |DocText(x.doc)|, base16)
    && Value(f, i, base16) == Value(f, at, base16)
    && Separator(f, at + |DocText(x.doc)|, close) == Some(next)
  }

  predicate Closes(c: char) {
    c == ']' || c == '}'
  }

  /** An item whose value ends where the skip to `stop` begins. */
  lemma {:induction false} ItemFrom(f: string, i: nat, x: Item, stop: nat, close: char, base16: Base16)
    requires Here(f, i, GapText(x.before) + DocText(x.doc)) && GoodItem(x) && ReadsHex(base16)
    requires var e := i + |GapText(x.before)| + |DocText(x.doc)|;
      Apart(f, e) && Skip(f, e) == Some(stop) && stop < |f| && (f[stop] == ',' || f[stop] == close)
    ensures ReadsItem(f, i, x, if f[stop] == ',' then stop + 1 else stop, close, base16)
    decreases x.doc, 5
  {
    hide Skip, GapText, DocText, Value, Meaning, Good, GoodGap, ReadsHex, Apart;
    var at := i + |GapText(x.before)|;
    HereSplit(f, i, GapText(x.before), DocText(x.doc));
    ValueHere(f, at, x.doc, base16);
    GapThenToken(f, i, x.before);
    SkipToken(f, at);
    ValueFromGap(f, i, at, base16);
  }

  lemma CommaIsToken(f: string, i: nat)
    requires i < |f| && f[i] == ','
    ensures TokenAt(f, i) && Apart(f, i)
  {
  }

  lemma CloseIsToken(f: string, i: nat)
    requires i < |f| && Closes(f[i])
    ensures TokenAt(f, i) && Apart(f, i)
  {
  }

  /** An item with its comma. */
  lemma {:induction false} ItemWithComma(f: string, i: nat, x: Item, close: char, base16: Base16)
    requires Here(f, i, GapText(x.before) + (DocText(x.doc) + (GapText(x.after) + ","))) && GoodItem(x) && ReadsHex(base16)
    ensures ReadsItem(f, i, x, i + |GapText(x.before)| + |DocText(x.doc)| + |GapText(x.after)| + 1, close, base16)
    decreases x.doc, 6
  {
    hide Skip, GapText, DocText, Good, GoodGap, ReadsHex, Apart, ReadsItem, TokenAt;
    var (b, d, a) := (GapText(x.before), DocText(x.doc), GapText(x.after));
    Regroup(b, d, a + ",");
    HereSplit(f, i, b + d, a + ",");
    HereSplit(f, i + |b| + |d|, a, ",");
    HereChar(f, i + |b| + |d| + |a|, ",", 0);
    CommaIsToken(f, i + |b| + |d| + |a|);
    GapThenToken(f, i + |b| + |d|, x.after);
    GapIsApart(f, i + |b| + |d|, x.after);
    ItemFrom(f, i, x, i + |b| + |d| + |a|, close, base16);
  }

  /** A last item without a comma, up to the closing bracket. */
  lemma {:induction false} ItemBeforeClose(f: string, i: nat, x: Item, end: Gap, close: char, base16: Base16)
    requires Here(f, i, GapText(x.before) + (DocText(x.doc) + (GapText(x.after) + (GapText(end) + [close]))))
    requires GoodItem(x) && GoodGap(end) && ReadsHex(base16) && Closes(close)
    ensures var stop := i + |GapText(x.before)| + |DocText(x.doc)| + |GapText(x.after)| + |GapText(end)|;
      stop < |f| && f[stop] == close && ReadsItem(f, i, x, stop, close, base16)
    decreases x.doc, 6
  {
    hide Here, Skip, GapText, DocText, Good, GoodItem, GoodGap, ReadsHex, Apart, ReadsItem, TokenAt;
    var (b, d, a, g) := (GapText(x.before), DocText(x.doc), GapText(x.after), GapText(end));
    var e := i + |b| + |d|;
    Regroup(b, d, a + (g + [close]));
    HereSplit(f, i, b + d, a + (g + [close]));
    GapsOf(x);
    GapsThenClose(f, e, x.after, end, close);
    ItemFrom(f, i, x, e + |a| + |g|, close, base16);
  }

  lemma GapsOf(x: Item)
    requires GoodItem(x)
    ensures GoodGap(x.after)
  {
  }

  /** Two gaps and a closing bracket: the skip stops at the bracket. */
  lemma GapsThenClose(f: string, e: nat, a: Gap, g: Gap, close: char)
    requires Here(f, e, GapText(a) + (GapText(g) + [close])) && GoodGap(a) && GoodGap(g) && Closes(close)
    ensures var stop := e + |GapText(a)| + |GapText(g)|;
      Apart(f, e) && Skip(f, e) == Some(stop) && stop < |f| && f[stop] == close
  {
    hide Skip, GapText, GoodGap, Apart, TokenAt;
    var at := e + |GapText(a)|;
    HereSplit(f, e, GapText(a), GapText(g) + [close]);
    HereSplit(f, at, GapText(g), [close]);
    HereChar(f, at + |GapText(g)|, [close], 0);
    CloseIsToken(f, at + |GapText(g)|);
    GapThenToken(f, at, g);
    GapIsApart(f, at, g);
    SkipGap(f, e, a);
    GapIsApart(f, e, a);
  }

  // ---- all items

  lemma EndOfItems(f: string, i: nat, end: Gap, before: seq<Js>, base16: Base16)
    requires Here(f, i, GapText(end) + [']']) && GoodGap(end)
    ensures Items(f, i, before, base16) == Some((before, i + |GapText(end)| + 1))
  {
    hide Skip, GapText, GoodGap;
    HereSplit(f, i, GapText(end), [']']);
    HereChar(f, i + |GapText(end)|, [']'], 0);
    GapThenToken(f, i, end);
  }

  lemma ItemsStep(f: string, i: nat, x: Item, next: nat, before: seq<Js>, base16: Base16)
    requires ReadsItem(f, i, x, next, ']', base16) && next <= |f|
    ensures Items(f, i, before, base16) == Items(f, next, before + [Meaning(x.doc)], base16)
  {
    hide Skip, Value, Separator, GapText, DocText, Meaning;
  }

  /** An item's text with the comma it stands before. */
  function HeadText(x: Item): string {
    GapText(x.before) + (DocText(x.doc) + (GapText(x.after) + ","))
  }

  /** An item without a comma, before what ends the items. */
  lemma OpenItem(x: Item, tail: string)
    requires !x.comma
    ensures ItemText(x, true) + tail == GapText(x.before) + (DocText(x.doc) + (GapText(x.after) + tail))
  {
    var (b, d, a) := (GapText(x.before), DocText(x.doc), GapText(x.after));
    assert ItemText(x, true) == b + (d + (a + ""));
    hide *;
    assert a + "" == a;
    Regroup(b, d + a, tail);
    Regroup(d, a, tail);
  }

  lemma ItemsTextOpen(items: seq<Item>, tail: string)
    requires |items| == 1 && !items[0].comma
    ensures ItemsText(items) + tail == GapText(items[0].before) + (DocText(items[0].doc) + (GapText(items[0].after) + tail))
  {
    hide GapText, DocText, ItemText;
    OpenItem(items[0], tail);
    assert ItemsText(items) == ItemText(items[0], true) + "";
  }

  lemma ItemsTextCons(items: seq<Item>, tail: string)
    requires items != [] && (|items| > 1 || items[0].comma)
    ensures ItemsText(items) + tail == HeadText(items[0]) + (ItemsText(items[1..]) + tail)
  {
    ItemsTextFirst(items);
    ItemIsHead(items[0], |items| == 1);
    hide *;
    Regroup(HeadText(items[0]), ItemsText(items[1..]), tail);
  }

  lemma ItemsTextFirst(items: seq<Item>)
    requires items != []
    ensures ItemsText(items) == ItemText(items[0], |items| == 1) + ItemsText(items[1..])
  {
    hide ItemText;
  }

  lemma ItemIsHead(x: Item, last: bool)
    requires !last || x.comma
    ensures ItemText(x, last) == HeadText(x)
  {
    hide GapText, DocText;
  }

  lemma MeaningsCons(items: seq<Item>, before: seq<Js>)
    requires items != []
    ensures (before + [Meaning(items[0].doc)]) + Meanings(items[1..]) == before + Meanings(items)
  {
    hide Meaning;
  }

  lemma {:induction false} ItemsHere(f: string, i: nat, items: seq<Item>, end: Gap, before: seq<Js>, base16: Base16)
    requires Here(f, i, ItemsText(items) + (GapText(end) + [']']))
    requires GoodGap(end) && ReadsHex(base16) && forall k :: 0 <= k < |items| ==> GoodItem(items[k])
    ensures Items(f, i, before, base16) == Some((before + Meanings(items), i + |ItemsText(items) + (GapText(end) + [']'])|))
    decreases items, 1
  {
    hide Here, GapText, GoodItem, GoodGap, ReadsHex, ReadsItem, Items, Meaning, Meanings, ItemsText, DocText;
    var tail := GapText(end) + [']'];
    if items == [] {
      NoItems();
      assert ItemsText(items) + tail == tail && before + [] == before;
      EndOfItems(f, i, end, before, base16);
    } else {
      var x := items[0];
      var v := Meaning(x.doc);
      assert x.doc < x && x in items;
      MeaningsCons(items, before);
      if |items| == 1 && !x.comma {
        ItemsTextOpen(items, tail);
        ItemBeforeClose(f, i, x, end, ']', base16);
        var stop := i + |GapText(x.before)| + |DocText(x.doc)| + |GapText(x.after)| + |GapText(end)|;
        ItemsStep(f, i, x, stop, before, base16);
        CloseAlone(f, stop, ']');
        EndOfItems(f, stop, [], before + [v], base16);
        NoItems();
        assert items[1..] == [] && (before + [v]) + [] == before + [v];
      } else {
        ItemsTextCons(items, tail);
        HereSplit(f, i, HeadText(x), ItemsText(items[1..]) + tail);
        ItemWithComma(f, i, x, ']', base16);
        var next := i + |HeadText(x)|;
        FitsIn(f, next, ItemsText(items[1..]) + tail);
        ItemsStep(f, i, x, next, before, base16);
        ItemsHere(f, next, items[1..], end, before + [v], base16);
      }
    }
  }

  lemma FitsIn(f: string, i: nat, s: string)
    requires Here(f, i, s)
    ensures i + |s| <= |f|
  {
  }

  lemma NoItems()
    ensures ItemsText([]) == "" && Meanings([]) == []
  {
  }

  lemma CloseAlone(f: string, i: nat, c: char)
    requires i < |f| && f[i] == c
    ensures GapText([]) == "" && GoodGap([]) && Here(f, i, GapText([]) + [c])
  {
    assert GapText([]) + [c] == [c];
  }

  // ---- all fields

  lemma EndOfFields(f: string, i: nat, end: Gap, m: map<Text, Js>, base16: Base16)
    requires Here(f, i, GapText(end) + ['}']) && GoodGap(end)
    ensures Fields(f, i, m, base16) == Some((m, i + |GapText(end)| + 1))
  {
    hide Skip, GapText, GoodGap;
    HereSplit(f, i, GapText(end), ['}']);
    HereChar(f, i + |GapText(end)|, ['}'], 0);
    GapThenToken(f, i, end);
  }

  /** The name of a field, from the gap before it, and then its item. */
  lemma FieldsStep(f: string, i: nat, x: FieldForm, next: nat, m: map<Text, Js>, base16: Base16)
    requires Here(f, i, GapText(x.before) + (KeyText(x.key) + (GapText(x.afterKey) + [':'])))
    requires GoodGap(x.before) && GoodKey(x.key) && GoodGap(x.afterKey) && ReadsHex(base16) && next <= |f|
    requires ReadsItem(f, i + |GapText(x.before)| + |KeyText(x.key)| + |GapText(x.afterKey)| + 1, x.item, next, '}', base16)
    ensures Fields(f, i, m, base16) == Fields(f, next, m[KeyValue(x.key) := Meaning(x.item.doc)], base16)
  {
    hide Skip, Value, Separator, KeyColon, GapText, KeyText, KeyValue, DocText, Meaning, GoodGap, GoodKey, ReadsHex;
    var at := i + |GapText(x.before)|;
    HereSplit(f, i, GapText(x.before), KeyText(x.key) + (GapText(x.afterKey) + [':']));
    KeyColonHere(f, at, x.key, x.afterKey, base16);
    GapThenToken(f, i, x.before);
  }

  /** A field's name and colon. */
  function NameText(x: FieldForm): string {
    GapText(x.before) + (KeyText(x.key) + (GapText(x.afterKey) + [':']))
  }

  lemma FieldsTextOpen(fields: seq<FieldForm>, tail: string)
    requires |fields| == 1 && !fields[0].item.comma
    ensures var x := fields[0].item;
      FieldsText(fields) + tail == NameText(fields[0]) + (GapText(x.before) + (DocText(x.doc) + (GapText(x.after) + tail)))
  {
    hide GapText, DocText, KeyText, ItemText, FieldText, NameText;
    var x := fields[0];
    OpenItem(x.item, tail);
    FieldShape(x, true);
    assert FieldsText(fields) == FieldText(x, true) + "" == FieldText(x, true);
    Regroup(NameText(x), ItemText(x.item, true), tail);
  }

  lemma FieldShape(x: FieldForm, last: bool)
    ensures FieldText(x, last) == NameText(x) + ItemText(x.item, last)
  {
    hide GapText, KeyText, ItemText;
    var (b, k, g, t) := (GapText(x.before), KeyText(x.key), GapText(x.afterKey), ItemText(x.item, last));
    assert b + (k + (g + ([':'] + t))) == (b + (k + (g + [':']))) + t;
  }

  lemma FieldsTextCons(fields: seq<FieldForm>, tail: string)
    requires fields != [] && (|fields| > 1 || fields[0].item.comma)
    ensures FieldsText(fields) + tail == NameText(fields[0]) + (HeadText(fields[0].item) + (FieldsText(fields[1..]) + tail))
  {
    var x := fields[0];
    FieldsTextFirst(fields);
    FieldShape(x, |fields| == 1);
    ItemIsHead(x.item, |fields| == 1);
    hide *;
    var (n, h, rest) := (NameText(x), HeadText(x.item), FieldsText(fields[1..]));
    Regroup(n + h, rest, tail);
    Regroup(n, h, rest + tail);
  }

  lemma FieldsTextFirst(fields: seq<FieldForm>)
    requires fields != []
    ensures FieldsText(fields) == FieldText(fields[0], |fields| == 1) + FieldsText(fields[1..])
  {
    hide FieldText;
  }

  lemma {:induction false} FieldsHere(f: string, i: nat, fields: seq<FieldForm>, end: Gap, m: map<Text, Js>, base16: Base16)
    requires Here(f, i, FieldsText(fields) + (GapText(end) + ['}']))
    requires GoodGap(end) && ReadsHex(base16) && forall k :: 0 <= k < |fields| ==> GoodField(fields[k])
    ensures Fields(f, i, m, base16) == Some((FieldMeanings(fields, m), i + |FieldsText(fields) + (GapText(end) + ['}'])|))
    decreases fields, 1
  {
    hide Here, GapText, DocText, KeyText, KeyValue, GoodItem, GoodKey, GoodGap, ReadsHex, ReadsItem, Fields, Meaning, FieldsText, FieldMeanings;
    var tail := GapText(end) + ['}'];
    if fields == [] {
      NoFields(m);
      assert FieldsText(fields) + tail == tail;
      EndOfFields(f, i, end, m, base16);
    } else {
      var x := fields[0];
      assert x.item.doc < x.item < x && x in fields;
      var at, m' := i + |NameText(x)|, m[KeyValue(x.key) := Meaning(x.item.doc)];
      FieldMeaningsCons(fields, m);
      if |fields| == 1 && !x.item.comma {
        FieldsTextOpen(fields, tail);
        var one := GapText(x.item.before) + (DocText(x.item.doc) + (GapText(x.item.after) + tail));
        HereSplit(f, i, NameText(x), one);
        ItemBeforeClose(f, at, x.item, end, '}', base16);
        var stop := at + |GapText(x.item.before)| + |DocText(x.item.doc)| + |GapText(x.item.after)| + |GapText(end)|;
        FieldsStep(f, i, x, stop, m, base16);
        CloseAlone(f, stop, '}');
        EndOfFields(f, stop, [], m', base16);
        NoFields(m');
      } else {
        FieldsTextCons(fields, tail);
        HereSplit(f, i, NameText(x), HeadText(x.item) + (FieldsText(fields[1..]) + tail));
        HereSplit(f, at, HeadText(x.item), FieldsText(fields[1..]) + tail);
        ItemWithComma(f, at, x.item, '}', base16);
        var next := at + |HeadText(x.item)|;
        FitsIn(f, next, FieldsText(fields[1..]) + tail);
        FieldsStep(f, i, x, next, m, base16);
        FieldsHere(f, next, fields[1..], end, m', base16);
      }
    }
  }

  lemma NoFields(m: map<Text, Js>)
    ensures FieldsText([]) == "" && FieldMeanings([], m) == m
  {
  }

  lemma FieldMeaningsCons(fields: seq<FieldForm>, m: map<Text, Js>)
    requires fields != []
    ensures FieldMeanings(fields, m) == FieldMeanings(fields[1..], m[KeyValue(fields[0].key) := Meaning(fields[0].item.doc)])
  {
    hide Meaning, KeyValue;
  }

  /**
   A literal written in any way, after any gap, is read as what it stands for, up to exactly its end, whatever follows it that is not
   more of the same token.
   */
  lemma WrittenIsRead(f: string, i: nat, before: Gap, d: Doc, base16: Base16)
    requires Here(f, i, GapText(before) + DocText(d)) && GoodGap(before) && Good(d) && ReadsHex(base16)
    requires Apart(f, i + |GapText(before) + DocText(d)|)
    ensures Value(f, i, base16) == Some((Meaning(d), i + |GapText(before) + DocText(d)|))
  {
    hide Skip, GapText, DocText, Value, Meaning, Good, GoodGap, ReadsHex, Apart;
    var at := i + |GapText(before)|;
    HereSplit(f, i, GapText(before), DocText(d));
    ValueHere(f, at, d, base16);
    GapThenToken(f, i, before);
    SkipToken(f, at);
    ValueFromGap(f, i, at, base16);
  }
}
