/**
 Which settings the owner's files set: the daemon resolves every shipped setting, a one-shot process only the settings that the files
 name. And the report that explains one setting layer by layer.
 */
module SettingOverlay {
  import opened Prelude
  import opened Values
  import opened Settings

  // ---- the two ways to find what the files set

  function Effective(sh: Shipped, layers: Layers, env: Env, rd: Reading): map<string, Resolved> {
    map k | k in sh.entries :: ResolveOne(sh, sh.entries[k], layers, env, rd)
  }

  predicate FromFile(r: Resolved) {
    r.source == FromSettings || r.source == FromUserFile
  }

  function OverlayOf(eff: map<string, Resolved>): map<string, Json> {
    map k | k in eff && FromFile(eff[k]) :: eff[k].value
  }

  /** Every dotted path within a value, its own included. */
  function PathsOf(prefix: string, v: Json): set<string>
    decreases v, 1
  {
    {prefix} + (if v.JObj? then PathsUnder(prefix + ".", v, v.fields.Keys) else {})
  }

  /** The paths of some fields of an object. */
  function PathsUnder(stem: string, v: Json, keys: set<string>): set<string>
    requires v.JObj?
    decreases v, 0
  {
    set k, p | k in keys && k in v.fields && p in PathsOf(stem + k, v.fields[k]) :: p
  }

  lemma OneMoreField(stem: string, v: Json, keys: set<string>, k: string)
    requires v.JObj? && k in v.fields
    ensures PathsUnder(stem, v, keys + {k}) == PathsUnder(stem, v, keys) + PathsOf(stem + k, v.fields[k])
  {
    hide PathsOf;
  }

  lemma NoFields(stem: string, v: Json)
    requires v.JObj?
    ensures PathsUnder(stem, v, {}) == {}
  {
  }

  method RunPathsOf(prefix: string, v: Json, found: set<string>) returns (paths: set<string>)
    ensures paths == found + PathsOf(prefix, v)
    decreases v
  {
    paths := found + {prefix};
    if v.JObj? {
      var rest := v.fields.Keys;
      while rest != {}
        invariant rest <= v.fields.Keys
        invariant paths == found + {prefix} + PathsUnder(prefix + ".", v, v.fields.Keys - rest)
      {
        var k :| k in rest;
        paths := RunPathsOf(prefix + "." + k, v.fields[k], paths);
        OneMoreField(prefix + ".", v, v.fields.Keys - rest, k);
        assert v.fields.Keys - rest + {k} == v.fields.Keys - (rest - {k});
        rest := rest - {k};
      }
      assert v.fields.Keys - rest == v.fields.Keys;
    }
  }

  /** The keys the two files name. */
  function NamedKeys(layers: Layers): set<string> {
    layers.user.Keys + (if layers.settings.JObj? then PathsUnder("", layers.settings, layers.settings.fields.Keys) else {})
  }

  function NamedOverlay(sh: Shipped, layers: Layers, env: Env, rd: Reading): map<string, Json> {
    map k | k in NamedKeys(layers) && k in sh.entries && FromFile(ResolveOne(sh, sh.entries[k], layers, env, rd)) ::
      ResolveOne(sh, sh.entries[k], layers, env, rd).value
  }

  predicate SaysNothing(layers: Layers) {
    layers.user == map[] && !(layers.settings.JObj? && layers.settings.fields != map[])
  }

  method RunNamedKeys(layers: Layers) returns (keys: set<string>)
    ensures keys == NamedKeys(layers)
  {
    hide PathsUnder, PathsOf;
    keys := layers.user.Keys;
    if layers.settings.JObj? {
      var v := layers.settings;
      var rest := v.fields.Keys;
      NoFields("", v);
      assert v.fields.Keys - rest == {};
      while rest != {}
        invariant rest <= v.fields.Keys
        invariant keys == layers.user.Keys + PathsUnder("", v, v.fields.Keys - rest)
      {
        var section :| section in rest;
        assert "" + section == section;
        keys := RunPathsOf(section, v.fields[section], keys);
        OneMoreField("", v, v.fields.Keys - rest, section);
        assert v.fields.Keys - rest + {section} == v.fields.Keys - (rest - {section});
        rest := rest - {section};
      }
      assert v.fields.Keys - rest == v.fields.Keys;
    }
  }

  /** A one-shot process: nothing is resolved when the files say nothing, and otherwise only the keys they name. */
  method ProcessOverlay(sh: Shipped, layers: Layers, env: Env, rd: Reading) returns (overlay: map<string, Json>)
    ensures overlay == if SaysNothing(layers) then map[] else NamedOverlay(sh, layers, env, rd)
  {
    overlay := map[];
    if SaysNothing(layers) {
      return;
    }
    var keys := RunNamedKeys(layers);
    hide ResolveOne, NamedKeys, SaysNothing;
    var rest := keys;
    while rest != {}
      invariant rest <= keys
      invariant forall k :: k in overlay <==>
        k in keys && k !in rest && k in sh.entries && FromFile(ResolveOne(sh, sh.entries[k], layers, env, rd))
      invariant forall k :: k in overlay ==> overlay[k] == ResolveOne(sh, sh.entries[k], layers, env, rd).value
    {
      var k :| k in rest;
      if k in sh.entries {
        var r := ResolveOne(sh, sh.entries[k], layers, env, rd);
        if FromFile(r) {
          overlay := overlay[k := r.value];
        }
      }
      rest := rest - {k};
    }
  }

  // ---- every setting a file can reach is named

  /** A dotted walk that arrives is one of the paths. */
  lemma {:induction false} WalkIsNamed(prefix: string, v: Json, key: string)
    requires Walk(v, Split(key)).Some?
    ensures prefix + "." + key in PathsOf(prefix, v)
    decreases |key|
  {
    match FirstDot(key)
    case None =>
      assert prefix + "." + key in PathsOf(prefix + "." + key, v.fields[key]);
    case Some(i) =>
      var (k, rest) := (key[..i], key[i + 1..]);
      assert ([k] + Split(rest))[1..] == Split(rest);
      WalkIsNamed(prefix + "." + k, v.fields[k], rest);
      assert key == k + "." + rest;
      assert prefix + "." + k + "." + rest == prefix + "." + key;
  }

  /** Whatever a lookup finds, flat or dotted, is one of the paths. */
  lemma LookupIsNamed(section: string, v: Json, key: string)
    requires Lookup(v, key).Some?
    ensures section + "." + key in PathsOf(section, v)
  {
    if key in v.fields {
      assert section + "." + key in PathsOf(section + "." + key, v.fields[key]);
    } else {
      WalkIsNamed(section, v, key);
    }
  }

  /** A setting that a file supplies is one that the files name. */
  lemma SuppliedIsNamed(sh: Shipped, e: Entry, layers: Layers, env: Env, rd: Reading)
    requires FromFile(ResolveOne(sh, e, layers, env, rd))
    ensures e.key in NamedKeys(layers)
  {
    hide Coerce, Lookup, PathsOf, OfEnv, OfUser;
    if OfSettings(e, layers.settings, rd).Some? {
      var i := FirstDot(e.key).value;
      var section := e.key[..i];
      LookupIsNamed(section, layers.settings.fields[section], e.key[i + 1..]);
      assert e.key == section + "." + e.key[i + 1..] && "" + section == section;
    } else {
      NamedByUser(e, layers);
    }
  }

  lemma NamedByUser(e: Entry, layers: Layers)
    requires OfUser(e, layers.user).Some?
    ensures e.key in NamedKeys(layers)
  {
  }

  /**
   Resolving only the keys the files name gives exactly the overlay that resolving every shipped setting gives, and files that say
   nothing give the empty one.
   */
  lemma NamedKeysSuffice(sh: Shipped, layers: Layers, env: Env, rd: Reading)
    requires ValidShipped(sh)
    ensures NamedOverlay(sh, layers, env, rd) == OverlayOf(Effective(sh, layers, env, rd))
    ensures SaysNothing(layers) ==> OverlayOf(Effective(sh, layers, env, rd)) == map[]
  {
    hide ResolveOne, NamedKeys, SaysNothing;
    forall k | k in sh.entries && FromFile(ResolveOne(sh, sh.entries[k], layers, env, rd)) ensures k in NamedKeys(layers) {
      SuppliedIsNamed(sh, sh.entries[k], layers, env, rd);
    }
    if SaysNothing(layers) {
      NothingNamed(layers);
      assert NamedOverlay(sh, layers, env, rd) == map[];
    }
  }

  lemma NothingNamed(layers: Layers)
    requires SaysNothing(layers)
    ensures NamedKeys(layers) == {}
  {
  }

  // ---- explaining one setting

  datatype RowState = Applied | Shadowed | Refused | Absent

  datatype Row = Row(layer: Source, state: RowState, value: Option<Json>)

  /** May a project's value stand over the one below it? None when it may, else why not. */
  type Tighten = (string, Json, Json) -> Option<string>

  function ResolveForProject(sh: Shipped, e: Entry, layers: Layers, env: Env, rd: Reading, project: map<string, Json>, tighten: Tighten)
    : (Resolved, Option<string>)
  {
    var below := ResolveOne(sh, e, layers, env, rd);
    if below.source == FromEnv || sh.locked(e.key) || e.key !in project then (below, None)
    else match tighten(e.key, project[e.key], below.value)
      case None => (Resolved(project[e.key], FromProject), None)
      case Some(why) => (below, Some(why))
  }

  function StateOf(layer: Source, held: Option<Json>, used: Source, refused: bool): RowState {
    if held.None? then Absent
    else if layer == used then Applied
    else if layer == FromProject && refused then Refused
    else Shadowed
  }

  /** What every layer holds for a setting, the highest first. */
  function Explain(sh: Shipped, e: Entry, layers: Layers, env: Env, rd: Reading, project: map<string, Json>, tighten: Tighten)
    : (rows: seq<Row>)
  {
    var (eff, refusal) := ResolveForProject(sh, e, layers, env, rd, project, tighten);
    var row := (layer, held) => Row(layer, StateOf(layer, held, eff.source, refusal.Some?), held);
    [ row(FromEnv, OfEnv(e, env, rd)),
      row(FromProject, if e.key in project then Some(project[e.key]) else None),
      row(FromSettings, OfSettings(e, layers.settings, rd)),
      row(FromUserFile, OfUser(e, layers.user)),
      row(FromDefault, Some(ToJson(e.value))) ]
  }

  /** Just one row is applied, and it is the layer and the value in effect. */
  ghost predicate ShowsEffective(rows: seq<Row>, eff: Resolved) {
    exists i :: 0 <= i < |rows| && rows[i].state.Applied? && rows[i].layer == eff.source && rows[i].value == Some(eff.value)
      && forall j :: 0 <= j < |rows| && rows[j].state.Applied? ==> j == i
  }

  /** No row above the applied one holds a value, but for a refused project value. */
  ghost predicate NothingAbove(rows: seq<Row>, used: Source) {
    forall i, j :: 0 <= i < j < |rows| && rows[j].layer == used ==> rows[i].state.Absent? || (rows[i].state.Refused? && rows[i].layer == FromProject)
  }

  /** Does a layer over the shipped value hold one for this setting? */
  predicate Held(e: Entry, layers: Layers, env: Env, rd: Reading, project: map<string, Json>) {
    OfEnv(e, env, rd).Some? || e.key in project || OfSettings(e, layers.settings, rd).Some? || OfUser(e, layers.user).Some?
  }

  /**
   The report's applied row is always the value in effect. That every row above it is empty or refused holds just when it is not a
   locked setting that some layer holds a value for: there the shipped value is applied under rows shown as shadowed.
   */
  lemma ExplainIsFaithful(sh: Shipped, e: Entry, layers: Layers, env: Env, rd: Reading, project: map<string, Json>, tighten: Tighten)
    ensures var eff := ResolveForProject(sh, e, layers, env, rd, project, tighten).0;
      var rows := Explain(sh, e, layers, env, rd, project, tighten);
      && ShowsEffective(rows, eff)
      && (NothingAbove(rows, eff.source) <==> !(sh.locked(e.key) && Held(e, layers, env, rd, project)))
  {
    hide OfEnv, OfSettings, OfUser;
    var eff := ResolveForProject(sh, e, layers, env, rd, project, tighten).0;
    var rows := Explain(sh, e, layers, env, rd, project, tighten);
    var used := match eff.source
      case FromEnv => 0
      case FromProject => 1
      case FromSettings => 2
      case FromUserFile => 3
      case FromDefault => 4;
    assert rows[used].state.Applied? && rows[used].value == Some(eff.value);
    if sh.locked(e.key) && Held(e, layers, env, rd, project) {
      var i := if OfEnv(e, env, rd).Some? then 0 else if e.key in project then 1 else if OfSettings(e, layers.settings, rd).Some? then 2 else 3;
      assert rows[i].state.Shadowed? && rows[4].layer == FromDefault;
    }
  }

  /**
   A project's value is used just when the setting is not locked, the environment gives it none, and it may stand over the value below;
   one that may not is refused with the reason, and in every other case the value below stays, without one.
   */
  lemma ProjectValueIsUsed(sh: Shipped, e: Entry, layers: Layers, env: Env, rd: Reading, project: map<string, Json>, tighten: Tighten)
    ensures var below := ResolveOne(sh, e, layers, env, rd);
      var (r, why) := ResolveForProject(sh, e, layers, env, rd, project, tighten);
      var tried := e.key in project && !sh.locked(e.key) && below.source != FromEnv;
      && (r.source == FromProject <==> tried && tighten(e.key, project[e.key], below.value) == None)
      && (r.source == FromProject ==> r.value == project[e.key])
      && (r.source != FromProject ==> r == below)
      && (why.Some? <==> tried && tighten(e.key, project[e.key], below.value).Some?)
      && (why.Some? ==> why == tighten(e.key, project[e.key], below.value))
  {
  }
}
