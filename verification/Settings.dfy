/** One setting through its layers: the environment, settings.json, the user's config file and the shipped value. */
module Settings {
  import opened Prelude
  import opened Values

  datatype Entry = Entry(key: string, value: V, env: Option<string>, min: Option<I64>, max: Option<I64>)

  /** What the shipped files hold: entries by key, and which keys the files may not change. */
  datatype Shipped = Shipped(entries: map<string, Entry>, locked: string -> bool)

  ghost predicate ValidShipped(sh: Shipped) {
    forall k :: k in sh.entries ==> sh.entries[k].key == k && WellFormed(sh.entries[k].value)
  }

  /** The two files as read: settings.json (null when absent) and the flattened, checked settings of the user file. */
  datatype Layers = Layers(settings: Json, user: map<string, Json>)

  /** How texts are read: trimming, numbers and words for true and false. */
  datatype Reading = Reading(
    trim: string -> string,
    whole: string -> Option<I64>,
    natural: string -> Option<U64>,
    isTrue: string -> bool,
    isFalse: string -> bool,
    numberText: Number -> string)

  type Env = string -> Option<string>

  datatype Source = FromDefault | FromUserFile | FromSettings | FromEnv | FromProject

  datatype Resolved = Resolved(value: Json, source: Source)

  // ---- bounds

  function Clamp(e: Entry, n: I64): I64 {
    var low := if e.min.Some? then Max(n, e.min.value) else n;
    if e.max.Some? then Min(low, e.max.value) else low
  }

  predicate InRange(e: Entry, n: int) {
    && (e.min.Some? ==> e.min.value <= n)
    && (e.max.Some? ==> n <= e.max.value)
  }

  predicate Bounded(e: Entry) {
    e.min.Some? && e.max.Some? ==> e.min.value <= e.max.value
  }

  function Distance(a: int, b: int): nat {
    if a < b then b - a else a - b
  }

  /** Clamping gives the nearest number in range, and gives one in range just when the bounds are in order. */
  lemma ClampIsInRange(e: Entry, n: I64)
    ensures InRange(e, Clamp(e, n)) <==> Bounded(e)
    ensures forall m :: InRange(e, m) ==> Distance(Clamp(e, n), n) <= Distance(m, n)
  {
  }

  // ---- dotted keys

  function FirstDot(s: string): (r: Option<nat>)
    ensures r.Some? ==> r.value < |s| && s[r.value] == '.' && '.' !in s[..r.value]
    ensures r.None? ==> '.' !in s
  {
    if s == "" then None
    else if s[0] == '.' then Some(0)
    else match FirstDot(s[1..])
      case None => None
      case Some(i) => assert s[..i + 1] == [s[0]] + s[1..][..i]; Some(i + 1)
  }

  function Split(s: string): (parts: seq<string>)
    ensures parts != []
  {
    match FirstDot(s)
    case None => [s]
    case Some(i) => [s[..i]] + Split(s[i + 1..])
  }

  function Walk(j: Json, parts: seq<string>): Option<Json> {
    if parts == [] then Some(j)
    else if j.JObj? && parts[0] in j.fields then Walk(j.fields[parts[0]], parts[1..])
    else None
  }

  /** A name of its own wins; only a name with dots is looked for step by step. */
  function Lookup(obj: Json, key: string): Option<Json> {
    if !obj.JObj? then None
    else if key in obj.fields then Some(obj.fields[key])
    else if '.' !in key then None
    else Walk(obj, Split(key))
  }

  // ---- one setting

  /** A settings.json value for a setting; none falls through to the next layer. */
  function Coerce(e: Entry, raw: Json, rd: Reading): Option<Json> {
    match e.value
    case List(_) => CoerceWhole(e, raw)
    case Table(_) => CoerceWhole(e, raw)
    case _ =>
      var text := match raw
        case JStr(s) => Some(rd.trim(s))
        case JNum(n) => Some(rd.numberText(n))
        case JBool(b) => Some(if b then "true" else "false")
        case _ => None;
      if text.None? || text.value == "" then None
      else match e.value
        case Int(_) =>
          if raw.JBool? then None
          else (match rd.whole(text.value) case None => None case Some(n) => Some(JInt(Clamp(e, n))))
        case Bool(_) =>
          if raw.JBool? then Some(raw)
          else if rd.isTrue(text.value) then Some(JBool(true))
          else if rd.isFalse(text.value) then Some(JBool(false))
          else None
        case _ => Some(JStr(text.value))
  }

  function CoerceWhole(e: Entry, raw: Json): Option<Json> {
    var nonempty := (raw.JObj? && raw.fields != map[]) || (raw.JArr? && raw.items != []);
    if nonempty && Shape(e.value, raw) then Some(Merge(ToJson(e.value), raw)) else None
  }

  function OfEnv(e: Entry, env: Env, rd: Reading): Option<Json> {
    if e.env.None? || env(e.env.value).None? || !e.value.Int? then None
    else match rd.natural(rd.trim(env(e.env.value).value))
      case None => None
      case Some(n) => Some(JInt(Clamp(e, Min(n, TWO_63 - 1))))
  }

  function OfSettings(e: Entry, settings: Json, rd: Reading): Option<Json> {
    match FirstDot(e.key)
    case None => None
    case Some(i) =>
      if !settings.JObj? || e.key[..i] !in settings.fields then None
      else match Lookup(settings.fields[e.key[..i]], e.key[i + 1..])
        case None => None
        case Some(raw) => Coerce(e, raw, rd)
  }

  function OfUser(e: Entry, user: map<string, Json>): Option<Json> {
    if e.key in user then Some(Merge(ToJson(e.value), user[e.key])) else None
  }

  function ResolveOne(sh: Shipped, e: Entry, layers: Layers, env: Env, rd: Reading): Resolved {
    if sh.locked(e.key) then Resolved(ToJson(e.value), FromDefault)
    else match OfEnv(e, env, rd)
      case Some(v) => Resolved(v, FromEnv)
      case None => match OfSettings(e, layers.settings, rd)
        case Some(v) => Resolved(v, FromSettings)
        case None => match OfUser(e, layers.user)
          case Some(v) => Resolved(v, FromUserFile)
          case None => Resolved(ToJson(e.value), FromDefault)
  }

  /** What flattening and checking the user file guarantees. */
  ghost predicate ValidUser(sh: Shipped, user: map<string, Json>) {
    forall k :: k in user ==>
      && k in sh.entries && !sh.locked(k) && Shape(sh.entries[k].value, user[k])
      && (sh.entries[k].value.Int? ==> InRange(sh.entries[k], AsInt(user[k]).value))
  }

  /** An integer setting, whichever layer supplied it, is within its bounds, unless it is a shipped value that is not. */
  lemma ResolvedIsInRange(sh: Shipped, e: Entry, layers: Layers, env: Env, rd: Reading)
    requires ValidShipped(sh) && e.key in sh.entries && sh.entries[e.key] == e && e.value.Int? && Bounded(e) && ValidUser(sh, layers.user)
    ensures var r := ResolveOne(sh, e, layers, env, rd);
      && AsInt(r.value).Some?
      && (InRange(e, AsInt(r.value).value) <==> (r.source == FromDefault ==> InRange(e, e.value.n)))
  {
  }

  /** A JSON value that is a whole number within the bounds. */
  predicate NumberInRange(e: Entry, j: Json) {
    AsInt(j).Some? && InRange(e, AsInt(j).value)
  }

  /**
   Without any check of the layers: an integer setting resolves to a number within its bounds just when the value it resolves to was
   clamped on the way, or is a shipped or a user value that is such a number itself.
   */
  lemma ResolvedInRangeExactly(sh: Shipped, e: Entry, layers: Layers, env: Env, rd: Reading)
    requires e.value.Int? && Bounded(e)
    ensures var r := ResolveOne(sh, e, layers, env, rd);
      NumberInRange(e, r.value) <==>
        && (r.source == FromDefault ==> InRange(e, e.value.n))
        && (r.source == FromUserFile ==> NumberInRange(e, layers.user[e.key]))
  {
    hide Lookup, FirstDot;
  }

  lemma ScalarsHaveShape(d: V)
    ensures d.Int? ==> forall n: I64 :: Shape(d, JInt(n))
    ensures d.Bool? ==> forall b :: Shape(d, JBool(b))
    ensures d.Str? ==> forall s :: Shape(d, JStr(s))
  {
  }

  /** Every effective value has the shape of the shipped one, when the shipped one has. */
  lemma ResolvedHasShape(sh: Shipped, e: Entry, layers: Layers, env: Env, rd: Reading)
    requires ValidShipped(sh) && e.key in sh.entries && sh.entries[e.key] == e && Like(e.value, e.value) && ValidUser(sh, layers.user)
    ensures Shape(e.value, ResolveOne(sh, e, layers, env, rd).value)
  {
    hide Shape, Like, Merge, ToJson, Clamp, WellFormed;
    HasItsOwnShape(e.value);
    ScalarsHaveShape(e.value);
    forall raw | Shape(e.value, raw) ensures Shape(e.value, Merge(ToJson(e.value), raw)) {
      MergeKeepsShape(e.value, raw);
    }
  }

  // ---- the forms in which a file may give a setting

  function JoinDots(parts: seq<string>): string {
    if parts == [] then "" else if |parts| == 1 then parts[0] else parts[0] + "." + JoinDots(parts[1..])
  }

  /** Splitting at the dots loses nothing. */
  lemma {:induction false} SplitJoins(s: string)
    ensures JoinDots(Split(s)) == s
    decreases |s|
  {
    match FirstDot(s)
    case None =>
    case Some(i) =>
      SplitJoins(s[i + 1..]);
      assert Split(s)[1..] == Split(s[i + 1..]);
      assert s == s[..i] + "." + s[i + 1..];
  }

  /** A value under nested objects, one for each name. */
  function Nest(parts: seq<string>, j: Json): Json {
    if parts == [] then j else JObj(map[parts[0] := Nest(parts[1..], j)])
  }

  lemma {:induction false} WalkFinds(parts: seq<string>, j: Json)
    ensures Walk(Nest(parts, j), parts) == Some(j)
  {
    if parts != [] {
      WalkFinds(parts[1..], j);
    }
  }

  /** A key is found whether a file writes its name whole or as nested objects. */
  lemma BothFormsAreFound(key: string, j: Json)
    ensures Lookup(JObj(map[key := j]), key) == Some(j) == Lookup(Nest(Split(key), j), key)
  {
    WalkFinds(Split(key), j);
  }

  /** A value that is read as itself: a nonempty trimmed text, a whole number, a truth value, a nonempty list or table. */
  predicate ReadsAsIs(j: Json, rd: Reading) {
    match j
    case JStr(s) => s != "" && rd.trim(s) == s
    case JNum(n) => AsInt(j).Some? && rd.numberText(n) != "" && rd.whole(rd.numberText(n)) == AsInt(j)
    case JBool(_) => true
    case JArr(items) => items != []
    case JObj(fields) => fields != map[]
    case JNull => false
  }

  lemma CoerceKeeps(e: Entry, j: Json, rd: Reading)
    requires Shape(e.value, j) && ReadsAsIs(j, rd) && (e.value.Int? ==> Bounded(e) && InRange(e, AsInt(j).value))
    ensures Coerce(e, j, rd) == Some(Merge(ToJson(e.value), j))
  {
    hide ToJson;
    if e.value.Int? { ClampIsInRange(e, AsInt(j).value); }
    if !e.value.Table? { ScalarIsReplaced(e.value, j); }
  }

  /**
   A value the user file accepts means the same in settings.json, in its flat or nested form: the same effective value, wherever nothing
   above it is set and the value is read as itself.
   */
  lemma FilesAgree(sh: Shipped, e: Entry, i: nat, j: Json, env: Env, rd: Reading)
    requires FirstDot(e.key) == Some(i) && e.key in sh.entries && sh.entries[e.key] == e && ValidUser(sh, map[e.key := j])
    requires ReadsAsIs(j, rd) && (e.value.Int? ==> Bounded(e)) && OfEnv(e, env, rd).None?
    ensures var (section, key) := (e.key[..i], e.key[i + 1..]);
      var inUser := ResolveOne(sh, e, Layers(JNull, map[e.key := j]), env, rd);
      var flat := ResolveOne(sh, e, Layers(JObj(map[section := JObj(map[key := j])]), map[]), env, rd);
      var nested := ResolveOne(sh, e, Layers(JObj(map[section := Nest(Split(key), j)]), map[]), env, rd);
      inUser.value == flat.value == nested.value && inUser.source == FromUserFile && flat.source == nested.source == FromSettings
  {
    hide Coerce, Lookup, Merge, Shape, Split, Nest, ReadsAsIs, OfEnv;
    assert Shape(sh.entries[e.key].value, j);
    CoerceKeeps(e, j, rd);
    BothFormsAreFound(e.key[i + 1..], j);
  }
}
