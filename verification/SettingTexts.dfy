/** What each kind of value written in settings.json gives a setting, and which layer a setting takes its value from. */
module SettingTexts {
  import opened Prelude
  import opened Values
  import opened Settings

  // ---- values in settings.json

  /** The text a scalar is written with: a string trimmed, a number or a truth value as it is. */
  predicate WrittenAs(raw: Json, t: string, rd: Reading) {
    match raw
    case JStr(s) => t == rd.trim(s)
    case JNum(n) => t == rd.numberText(n)
    case JBool(b) => t == (if b then "true" else "false")
    case _ => false
  }

  /** A number in range nearest to `n`, which is `n` itself where that is in range. */
  predicate Nearest(e: Entry, n: int, m: int) {
    InRange(e, m) && (InRange(e, n) ==> m == n) && (!InRange(e, n) && e.min.Some? && n < e.min.value ==> m == e.min.value)
    && (!InRange(e, n) && e.max.Some? && e.max.value < n ==> m == e.max.value)
  }

  /** A truth setting: a true word gives true, a false word that is no true word gives false, any other text is passed over. */
  lemma TruthFromText(e: Entry, raw: Json, t: string, rd: Reading)
    requires e.value.Bool? && !raw.JBool? && WrittenAs(raw, t, rd)
    ensures Coerce(e, raw, rd) == Some(JBool(true)) <==> t != "" && rd.isTrue(t)
    ensures Coerce(e, raw, rd) == Some(JBool(false)) <==> t != "" && rd.isFalse(t) && !rd.isTrue(t)
    ensures Coerce(e, raw, rd) == None <==> t == "" || (!rd.isTrue(t) && !rd.isFalse(t))
  {
  }

  lemma TruthFromTruth(e: Entry, b: bool, rd: Reading)
    requires e.value.Bool?
    ensures Coerce(e, JBool(b), rd) == Some(JBool(b))
  {
  }

  /** A numeric setting: a text that reads as a whole number gives the nearest number in range, any other text or truth value nothing. */
  lemma NumberFromText(e: Entry, raw: Json, t: string, rd: Reading)
    requires e.value.Int? && WrittenAs(raw, t, rd)
    ensures raw.JBool? || t == "" || rd.whole(t).None? <==> Coerce(e, raw, rd) == None
    ensures !raw.JBool? && t != "" && rd.whole(t).Some? && Bounded(e) ==>
      exists m :: Nearest(e, rd.whole(t).value, m) && Coerce(e, raw, rd) == Some(JInt(m))
  {
    if !raw.JBool? && t != "" && rd.whole(t).Some? && Bounded(e) {
      assert Nearest(e, rd.whole(t).value, Clamp(e, rd.whole(t).value));
    }
  }

  /** A text setting: any scalar gives its text, unless that is empty. */
  lemma TextFromText(e: Entry, raw: Json, t: string, rd: Reading)
    requires e.value.Str? && WrittenAs(raw, t, rd)
    ensures Coerce(e, raw, rd) == if t == "" then None else Some(JStr(t))
  {
  }

  /** A scalar setting is given nothing by a null, a list or a table. */
  lemma NothingFromOthers(e: Entry, raw: Json, rd: Reading)
    requires !e.value.List? && !e.value.Table? && (raw.JNull? || raw.JArr? || raw.JObj?)
    ensures Coerce(e, raw, rd) == None
  {
  }

  /** A list or a table setting takes a nonempty list or table of its shape, merged over the shipped one, and nothing else. */
  lemma WholeFromShaped(e: Entry, raw: Json, rd: Reading)
    requires e.value.List? || e.value.Table?
    ensures Coerce(e, raw, rd).Some? <==> Shape(e.value, raw) && raw != JArr([]) && raw != JObj(map[])
    ensures Coerce(e, raw, rd).Some? ==> Coerce(e, raw, rd).value == Merge(ToJson(e.value), raw)
  {
  }

  // ---- the layer in effect

  /** The value a setting has in settings.json: under its section, by the rest of its key. */
  predicate StandsIn(settings: Json, key: string, raw: Json) {
    exists i :: 0 <= i < |key| && key[i] == '.' && '.' !in key[..i]
      && settings.JObj? && key[..i] in settings.fields && Lookup(settings.fields[key[..i]], key[i + 1..]) == Some(raw)
  }

  lemma StandsOnce(settings: Json, key: string, raw: Json)
    ensures StandsIn(settings, key, raw) <==>
      var i := FirstDot(key);
      i.Some? && settings.JObj? && key[..i.value] in settings.fields && Lookup(settings.fields[key[..i.value]], key[i.value + 1..]) == Some(raw)
  {
    hide Lookup, FirstDot;
    if i :| 0 <= i < |key| && key[i] == '.' && '.' !in key[..i] {
      DotIsFirst(key, i);
    }
  }

  lemma DotIsFirst(key: string, i: nat)
    requires i < |key| && key[i] == '.' && '.' !in key[..i]
    ensures FirstDot(key) == Some(i)
  {
    hide FirstDot;
    assert forall d :: 0 <= d < i ==> key[d] == key[..i][d];
    assert forall d, k :: 0 <= k < d < |key| ==> key[k] == key[..d][k];
  }

  /** The nodes passed on the way from a value by its fields' names. */
  predicate IsPath(nodes: seq<Json>, parts: seq<string>) {
    |nodes| == |parts| + 1
    && forall i :: 0 <= i < |parts| ==> nodes[i].JObj? && parts[i] in nodes[i].fields && nodes[i + 1] == nodes[i].fields[parts[i]]
  }

  lemma {:induction false} WalkIsPath(j: Json, parts: seq<string>) returns (nodes: seq<Json>)
    requires Walk(j, parts).Some?
    ensures IsPath(nodes, parts) && nodes[0] == j && nodes[|parts|] == Walk(j, parts).value
  {
    if parts == [] {
      nodes := [j];
    } else {
      var rest := WalkIsPath(j.fields[parts[0]], parts[1..]);
      nodes := [j] + rest;
    }
  }

  lemma {:induction false} PathIsWalked(nodes: seq<Json>, parts: seq<string>)
    requires IsPath(nodes, parts)
    ensures Walk(nodes[0], parts) == Some(nodes[|parts|])
  {
    if parts != [] {
      PathIsWalked(nodes[1..], parts[1..]);
    }
  }

  /** A key is looked up as a field of that very name; else, if it has a dot, along the path of its parts. */
  lemma LookupIsFieldOrPath(fields: map<string, Json>, key: string, v: Json)
    ensures Lookup(JObj(fields), key) == Some(v) <==>
      if key in fields then fields[key] == v
      else '.' in key && exists nodes :: IsPath(nodes, Split(key)) && nodes[0] == JObj(fields) && nodes[|Split(key)|] == v
  {
    if key !in fields && '.' in key {
      if Walk(JObj(fields), Split(key)).Some? {
        var nodes := WalkIsPath(JObj(fields), Split(key));
      }
      if nodes :| IsPath(nodes, Split(key)) && nodes[0] == JObj(fields) && nodes[|Split(key)|] == v {
        PathIsWalked(nodes, Split(key));
      }
    }
  }

  /** The environment's number for an integer setting: a text that reads as one after trimming. */
  predicate InEnvironment(e: Entry, env: Env, rd: Reading, n: U64) {
    e.value.Int? && e.env.Some? && env(e.env.value).Some? && rd.natural(rd.trim(env(e.env.value).value)) == Some(n)
  }

  /** A locked setting is always the shipped value, whatever the layers hold. */
  lemma LockedIsShipped(sh: Shipped, e: Entry, layers: Layers, env: Env, rd: Reading)
    requires sh.locked(e.key)
    ensures ResolveOne(sh, e, layers, env, rd) == Resolved(ToJson(e.value), FromDefault)
  {
  }

  /** The environment's number comes first: the number in range nearest to it. */
  lemma EnvironmentComesFirst(sh: Shipped, e: Entry, layers: Layers, env: Env, rd: Reading, n: U64)
    requires !sh.locked(e.key) && InEnvironment(e, env, rd, n) && Bounded(e)
    ensures var r := ResolveOne(sh, e, layers, env, rd);
      && r.source == FromEnv
      && exists m :: Nearest(e, if n < 0x8000_0000_0000_0000 then n else 0x7FFF_FFFF_FFFF_FFFF, m) && r.value == JInt(m)
  {
    var k := Min(n, TWO_63 - 1);
    assert Nearest(e, k, Clamp(e, k));
  }

  /** Without it, what settings.json gives, where it gives anything. */
  lemma SettingsComeSecond(sh: Shipped, e: Entry, layers: Layers, env: Env, rd: Reading, raw: Json)
    requires !sh.locked(e.key) && (forall n :: !InEnvironment(e, env, rd, n))
    requires StandsIn(layers.settings, e.key, raw) && Coerce(e, raw, rd).Some?
    ensures ResolveOne(sh, e, layers, env, rd) == Resolved(Coerce(e, raw, rd).value, FromSettings)
  {
    NoEnvironment(e, env, rd);
    StandsOnce(layers.settings, e.key, raw);
  }

  lemma NoEnvironment(e: Entry, env: Env, rd: Reading)
    requires forall n :: !InEnvironment(e, env, rd, n)
    ensures OfEnv(e, env, rd) == None
  {
    if OfEnv(e, env, rd).Some? {
      assert InEnvironment(e, env, rd, rd.natural(rd.trim(env(e.env.value).value)).value);
    }
  }

  /** Where it gives nothing, the user file's value merged over the shipped one, and where that has none the shipped value. */
  lemma UserFileComesThird(sh: Shipped, e: Entry, layers: Layers, env: Env, rd: Reading)
    requires !sh.locked(e.key) && (forall n :: !InEnvironment(e, env, rd, n))
    requires forall raw :: StandsIn(layers.settings, e.key, raw) ==> Coerce(e, raw, rd).None?
    ensures ResolveOne(sh, e, layers, env, rd) ==
      if e.key in layers.user then Resolved(Merge(ToJson(e.value), layers.user[e.key]), FromUserFile) else Resolved(ToJson(e.value), FromDefault)
  {
    NoEnvironment(e, env, rd);
    if OfSettings(e, layers.settings, rd).Some? {
      var i := FirstDot(e.key).value;
      var raw := Lookup(layers.settings.fields[e.key[..i]], e.key[i + 1..]).value;
      StandsOnce(layers.settings, e.key, raw);
    }
  }

  // ---- carried to the setting

  /** A truth setting that the files may change, written as a text in settings.json: what the words say, or else the layers below. */
  lemma TruthIsResolved(sh: Shipped, e: Entry, layers: Layers, env: Env, rd: Reading, raw: Json, t: string)
    requires !sh.locked(e.key) && e.value.Bool? && StandsIn(layers.settings, e.key, raw) && !raw.JBool? && WrittenAs(raw, t, rd)
    ensures t != "" && rd.isTrue(t) ==> ResolveOne(sh, e, layers, env, rd) == Resolved(JBool(true), FromSettings)
    ensures t != "" && !rd.isTrue(t) && rd.isFalse(t) ==> ResolveOne(sh, e, layers, env, rd) == Resolved(JBool(false), FromSettings)
    ensures t == "" || (!rd.isTrue(t) && !rd.isFalse(t)) ==> ResolveOne(sh, e, layers, env, rd).source in {FromUserFile, FromDefault}
  {
    TruthFromText(e, raw, t, rd);
    if Coerce(e, raw, rd).Some? {
      SettingsComeSecond(sh, e, layers, env, rd, raw);
    } else {
      StandsAlone(layers.settings, e.key, raw);
      UserFileComesThird(sh, e, layers, env, rd);
    }
  }

  lemma StandsAlone(settings: Json, key: string, raw: Json)
    requires StandsIn(settings, key, raw)
    ensures forall other :: StandsIn(settings, key, other) ==> other == raw
  {
    StandsOnce(settings, key, raw);
    forall other | StandsIn(settings, key, other) ensures other == raw {
      StandsOnce(settings, key, other);
    }
  }

  /** A numeric setting, the environment giving none: the nearest number in range to what the text reads as. */
  lemma NumberIsResolved(sh: Shipped, e: Entry, layers: Layers, env: Env, rd: Reading, raw: Json, t: string)
    requires !sh.locked(e.key) && e.value.Int? && Bounded(e) && (forall n :: !InEnvironment(e, env, rd, n))
    requires StandsIn(layers.settings, e.key, raw) && !raw.JBool? && WrittenAs(raw, t, rd) && t != "" && rd.whole(t).Some?
    ensures var r := ResolveOne(sh, e, layers, env, rd);
      r.source == FromSettings && exists m :: Nearest(e, rd.whole(t).value, m) && r.value == JInt(m)
  {
    NumberFromText(e, raw, t, rd);
    SettingsComeSecond(sh, e, layers, env, rd, raw);
  }

  /** A text setting: its trimmed text. */
  lemma TextIsResolved(sh: Shipped, e: Entry, layers: Layers, env: Env, rd: Reading, raw: Json, t: string)
    requires !sh.locked(e.key) && e.value.Str? && StandsIn(layers.settings, e.key, raw) && WrittenAs(raw, t, rd) && t != ""
    ensures ResolveOne(sh, e, layers, env, rd) == Resolved(JStr(t), FromSettings)
  {
    TextFromText(e, raw, t, rd);
    SettingsComeSecond(sh, e, layers, env, rd, raw);
  }
}
