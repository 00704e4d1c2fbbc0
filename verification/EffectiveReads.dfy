/** What the settings accessors answer once a snapshot's overlay is installed, against what the layers resolve to. */
module EffectiveReads {
  import opened Prelude
  import opened Values
  import opened LeakedValues
  import opened SortedRows
  import opened Settings
  import opened SettingOverlay
  import opened OverlayPool

  // ---- from the snapshot to the installed overlay

  /** A listing of an overlay: every entry once, in any order. */
  ghost predicate Lists(vals: seq<(string, Json)>, ov: map<string, Json>) {
    && (forall i, j :: 0 <= i < j < |vals| ==> vals[i].0 != vals[j].0)
    && (forall i :: 0 <= i < |vals| ==> vals[i].0 in ov && vals[i].1 == ov[vals[i].0])
    && forall k :: k in ov ==> exists i :: 0 <= i < |vals| && vals[i].0 == k
  }

  /** The installed value of a key. */
  function Installed(ov: map<string, Json>, k: string): Option<V> {
    if k in ov then LeakValue(ov[k]) else None
  }

  lemma {:induction false} FirstConvertible(shipped: set<string>, vals: seq<(string, Json)>, n: nat, k: string)
    requires n <= |vals| && k in shipped && forall i, j :: 0 <= i < j < |vals| ==> vals[i].0 != vals[j].0
    ensures (forall i :: 0 <= i < n ==> vals[i].0 != k) ==> First(Convertible(shipped, vals[..n]), k) == None
    ensures forall i :: 0 <= i < n && vals[i].0 == k ==> First(Convertible(shipped, vals[..n]), k) == LeakValue(vals[i].1)
  {
    hide LeakValue, Convertible;
    if n == 0 {
      NothingConverted(shipped);
      assert vals[..0] == [];
    } else {
      FirstConvertible(shipped, vals, n - 1, k);
      ConvertibleSnoc(shipped, vals, n - 1);
      var before := Convertible(shipped, vals[..n - 1]);
      var (q, j) := vals[n - 1];
      if q in shipped && LeakValue(j).Some? {
        FirstSnoc(before, (q, LeakValue(j).value), k);
      } else {
        assert before + [] == before;
      }
    }
  }

  /** Installing an overlay, listed in any order, sets just its keys, each to its value. */
  lemma InstallsOverlay(shipped: set<string>, vals: seq<(string, Json)>, ov: map<string, Json>, k: string)
    requires Lists(vals, ov) && ov.Keys <= shipped
    ensures First(Convertible(shipped, vals), k) == Installed(ov, k)
  {
    hide LeakValue, Convertible;
    assert vals[..|vals|] == vals;
    if k in shipped {
      FirstConvertible(shipped, vals, |vals|, k);
      if k in ov {
        var i :| 0 <= i < |vals| && vals[i].0 == k;
      }
    } else {
      NotShipped(shipped, vals, k);
    }
  }

  lemma {:induction false} NotShipped(shipped: set<string>, vals: seq<(string, Json)>, k: string)
    requires k !in shipped
    ensures First(Convertible(shipped, vals), k) == None
  {
    hide LeakValue;
    if vals != [] {
      var n := |vals| - 1;
      var (q, j) := vals[n];
      NotShipped(shipped, vals[..n], k);
      var before := Convertible(shipped, vals[..n]);
      if q in shipped && LeakValue(j).Some? {
        FirstSnoc(before, (q, LeakValue(j).value), k);
      } else {
        assert before + [] == before;
      }
    }
  }

  // ---- every kind of read

  ghost predicate Consistent(sh: Shipped, layers: Layers) {
    && ValidShipped(sh) && ValidUser(sh, layers.user)
    && forall k :: k in sh.entries ==> Like(sh.entries[k].value, sh.entries[k].value)
  }

  /** The value the accessors read: the installed one over the shipped one. */
  function Raw(e: Entry, over: Option<V>): V {
    if over.Some? then over.value else e.value
  }

  /**
   With a snapshot's overlay installed, reading a setting gives just what the layers resolve it to, unless the environment supplies it:
   the environment is not part of the overlay.
   */
  lemma RawIsEffective(sh: Shipped, layers: Layers, env: Env, rd: Reading, k: string)
    requires Consistent(sh, layers) && k in sh.entries
    ensures var e, r := sh.entries[k], ResolveOne(sh, sh.entries[k], layers, env, rd);
      var raw := Raw(e, Installed(OverlayOf(Effective(sh, layers, env, rd)), k));
      && (r.source != FromEnv ==> ToJson(raw) == r.value)
      && (r.source == FromEnv ==> raw == e.value)
  {
    hide ResolveOne, LeakValue, Shape, Holdable, ToJson, Like;
    var e, r := sh.entries[k], ResolveOne(sh, sh.entries[k], layers, env, rd);
    ResolvedHasShape(sh, e, layers, env, rd);
    NoProjectLayer(sh, e, layers, env, rd);
    if FromFile(r) {
      ShapedIsHoldable(e.value, r.value);
      LeakReadsBack(r.value);
    }
  }

  lemma NoProjectLayer(sh: Shipped, e: Entry, layers: Layers, env: Env, rd: Reading)
    ensures var r := ResolveOne(sh, e, layers, env, rd);
      r.source != FromProject && (r.source == FromDefault ==> r.value == ToJson(e.value))
  {
  }

  // ---- numbers

  /** The environment's number for a setting. */
  function EnvNatural(e: Entry, env: Env, rd: Reading): Option<U64> {
    if e.env.None? || env(e.env.value).None? then None else rd.natural(rd.trim(env(e.env.value).value))
  }

  function ClampNatural(e: Entry, n: nat): nat {
    var low := if e.min.Some? then Max(n, Max(e.min.value, 0)) else n;
    if e.max.Some? then Min(low, Max(e.max.value, 0)) else low
  }

  /** The hot-path read: the environment's number, else the installed or shipped one, then the bounds. */
  function Num(e: Entry, over: Option<V>, env: Env, rd: Reading): nat
    requires Raw(e, over).Int?
  {
    var n := match EnvNatural(e, env, rd) case Some(n) => n case None => Max(Raw(e, over).n, 0);
    ClampNatural(e, n)
  }

  /** The snapshot's read. */
  function SnapshotNum(r: Resolved): nat
    requires AsInt(r.value).Some?
  {
    Max(AsInt(r.value).value, 0)
  }

  lemma IntsStayInts(sh: Shipped, layers: Layers, env: Env, rd: Reading, k: string)
    requires Consistent(sh, layers) && k in sh.entries && sh.entries[k].value.Int?
    ensures AsInt(ResolveOne(sh, sh.entries[k], layers, env, rd).value).Some?
    ensures Raw(sh.entries[k], Installed(OverlayOf(Effective(sh, layers, env, rd)), k)).Int?
  {
    hide ResolveOne, LeakValue, Effective, Installed, OverlayOf;
    ResolvedHasShape(sh, sh.entries[k], layers, env, rd);
    RawIsEffective(sh, layers, env, rd, k);
  }

  /** A shipped number within its bounds, as far as they reach above zero. */
  predicate NaturallyInRange(e: Entry, n: int) {
    && (e.min.Some? ==> Max(e.min.value, 0) <= Max(n, 0))
    && (e.max.Some? ==> Max(n, 0) <= Max(e.max.value, 0))
  }

  /**
   Where the files and the environment may set a number, the hot-path read is the snapshot's just when: an environment number beyond
   the signed 64-bit range meets an upper bound, and a number that nothing sets is shipped within its bounds.
   */
  lemma {:induction false} NumIsEffectiveExactly(sh: Shipped, layers: Layers, env: Env, rd: Reading, k: string)
    requires Consistent(sh, layers) && k in sh.entries && sh.entries[k].value.Int? && Bounded(sh.entries[k]) && !sh.locked(k)
    ensures AsInt(ResolveOne(sh, sh.entries[k], layers, env, rd).value).Some?
    ensures Raw(sh.entries[k], Installed(OverlayOf(Effective(sh, layers, env, rd)), k)).Int?
    ensures var e, r := sh.entries[k], ResolveOne(sh, sh.entries[k], layers, env, rd);
      Num(e, Installed(OverlayOf(Effective(sh, layers, env, rd)), k), env, rd) == SnapshotNum(r)
      <==> match EnvNatural(e, env, rd)
        case Some(n) => n < TWO_63 || e.max.Some?
        case None => r.source == FromDefault ==> NaturallyInRange(e, e.value.n)
  {
    hide LeakValue, Effective, Installed, OverlayOf, Coerce, Lookup;
    var e, r := sh.entries[k], ResolveOne(sh, sh.entries[k], layers, env, rd);
    IntsStayInts(sh, layers, env, rd, k);
    RawIsEffective(sh, layers, env, rd, k);
    ResolvedIsInRange(sh, e, layers, env, rd);
    match EnvNatural(e, env, rd) {
      case Some(n) => ClampsAgree(e, n);
      case None => ClampMovesNothing(e, AsInt(r.value).value);
    }
  }

  lemma ClampsAgree(e: Entry, n: U64)
    requires Bounded(e)
    ensures ClampNatural(e, n) == Max(Clamp(e, Min(n, TWO_63 - 1)), 0) <==> n < TWO_63 || e.max.Some?
  {
  }

  lemma ClampMovesNothing(e: Entry, n: I64)
    requires Bounded(e)
    ensures ClampNatural(e, Max(n, 0)) == Max(n, 0) <==> NaturallyInRange(e, n)
    ensures InRange(e, n) ==> NaturallyInRange(e, n)
  {
  }

  /**
   A locked number still follows the environment in the hot-path read, where the snapshot keeps the shipped one: the two agree just when
   the environment's number, clamped, is the shipped one, or it has none and the shipped one is within its bounds.
   */
  lemma {:induction false} LockedNumFollowsEnvironment(sh: Shipped, layers: Layers, env: Env, rd: Reading, k: string)
    requires Consistent(sh, layers) && k in sh.entries && sh.entries[k].value.Int? && Bounded(sh.entries[k]) && sh.locked(k)
    ensures AsInt(ResolveOne(sh, sh.entries[k], layers, env, rd).value).Some?
    ensures Raw(sh.entries[k], Installed(OverlayOf(Effective(sh, layers, env, rd)), k)).Int?
    ensures var e, r := sh.entries[k], ResolveOne(sh, sh.entries[k], layers, env, rd);
      var read := Num(e, Installed(OverlayOf(Effective(sh, layers, env, rd)), k), env, rd);
      match EnvNatural(e, env, rd)
      case Some(n) =>
        && (InRange(e, n) ==> read == n)
        && (read == SnapshotNum(r) <==> ClampNatural(e, n) == Max(e.value.n, 0))
      case None => read == SnapshotNum(r) <==> NaturallyInRange(e, e.value.n)
  {
    hide LeakValue, Effective, Installed, OverlayOf, Coerce, Lookup;
    var e := sh.entries[k];
    IntsStayInts(sh, layers, env, rd, k);
    RawIsEffective(sh, layers, env, rd, k);
    ClampMovesNothing(e, e.value.n);
  }

  // ---- values derived from settings

  /** A value computed from the settings and kept until they change. */
  class Derived<T> {
    var slot: Option<(nat, T)>

    /** What is kept for the overlay's present generation is what would be computed now. */
    ghost predicate Fresh(o: Overlay, build: seq<Content> -> T)
      reads this, o
    {
      slot.Some? ==>
        && slot.value.0 <= o.generation
        && (slot.value.0 == o.generation ==> slot.value.1 == build(Contents(o.Active())))
    }

    constructor ()
      ensures slot == None
    {
      slot := None;
    }

    method Get(o: Overlay, build: seq<Content> -> T) returns (t: T)
      requires Fresh(o, build)
      modifies this
      ensures Fresh(o, build) && t == build(Contents(o.Active()))
    {
      if slot.Some? && slot.value.0 == o.generation {
        return slot.value.1;
      }
      t := build(Contents(o.Active()));
      slot := Some((o.generation, t));
    }
  }

  /** Installing values leaves every kept value usable: it is used again only while the contents are the ones it was computed from. */
  method InstallUnderDerived<T>(o: Overlay, d: Derived<T>, build: seq<Content> -> T, shipped: set<string>, vals: seq<(string, Json)>)
    requires o.Valid() && d.Fresh(o, build)
    modifies o
    ensures o.Valid() && d.Fresh(o, build)
    ensures forall k :: o.Over(k) == First(Convertible(shipped, vals), k)
  {
    o.SetOverlay(shipped, vals);
  }
}
