/** Over any run of reloads, what the settings accessors answer against the active snapshot. */
module SnapshotReads {
  import opened Prelude
  import opened Values
  import opened LeakedValues
  import opened Settings
  import opened SettingOverlay
  import opened EffectiveReads
  import opened Reload

  /** What an accessor reads for a shipped key. */
  function Read(s: State, k: string): V
    requires k in s.d.sh.entries
  {
    Raw(s.d.sh.entries[k], Installed(s.overlay, k))
  }

  /** Every reload of the run builds from layers that are valid for the defaults it builds with. */
  ghost predicate ChecksLayers(s: State, ins: seq<Input>, p: Process) {
    forall n :: 0 <= n < |ins| ==> Installs(Run(s, ins[..n], p), ins[n], p) ==>
      var s' := Run(s, ins[..n + 1], p); Consistent(s'.d.sh, s'.cur.layers)
  }

  /** The values that came from a file can be held, and the overlay is the snapshot's. */
  ghost predicate Readable(s: State) {
    && s.overlay == OverlayOf(s.cur.effective)
    && forall k :: k in s.cur.effective && FromFile(s.cur.effective[k]) ==> Holdable(s.cur.effective[k].value)
  }

  lemma BuildIsReadable(version: nat, d: Defaults, layers: Layers, hooks: Json, p: Process, running: map<string, Resolved>)
    requires Consistent(d.sh, layers)
    requires forall k :: k in running && FromFile(running[k]) ==> Holdable(running[k].value)
    ensures var s := Build(version, d, layers, hooks, p, running);
      forall k :: k in s.effective && FromFile(s.effective[k]) ==> Holdable(s.effective[k].value)
  {
    hide ResolveOne, Holdable, Shape, Like;
    var s := Build(version, d, layers, hooks, p, running);
    forall k | k in s.effective && FromFile(s.effective[k]) ensures Holdable(s.effective[k].value) {
      var e := d.sh.entries[k];
      ResolvedHasShape(d.sh, e, layers, p.env, p.rd);
      ShapedIsHoldable(e.value, ResolveOne(d.sh, e, layers, p.env, p.rd).value);
    }
  }

  lemma {:induction false} StaysReadable(s: State, ins: seq<Input>, p: Process)
    requires Readable(s) && ChecksLayers(s, ins, p)
    ensures Readable(Run(s, ins, p))
  {
    hide Build, OverlayOf, Holdable, Consistent;
    if ins != [] {
      var n := |ins| - 1;
      assert forall m :: 0 <= m <= n ==> ins[..n][..m] == ins[..m];
      assert ChecksLayers(s, ins[..n], p) by {
        forall m | 0 <= m < n && Installs(Run(s, ins[..n][..m], p), ins[..n][m], p)
          ensures Consistent(Run(s, ins[..n][..m + 1], p).d.sh, Run(s, ins[..n][..m + 1], p).cur.layers) {
          assert Installs(Run(s, ins[..m], p), ins[m], p);
        }
      }
      StaysReadable(s, ins[..n], p);
      assert ins[..n + 1] == ins && ins[..n] == ins[..|ins| - 1];
      ReadableOnce(Run(s, ins[..n], p), ins[n], p);
    }
  }

  lemma ReadableOnce(s: State, i: Input, p: Process)
    requires Readable(s) && (Installs(s, i, p) ==> Consistent(Next(s, i, p).0.d.sh, Next(s, i, p).0.cur.layers))
    ensures Readable(Next(s, i, p).0)
  {
    hide Build, OverlayOf, Holdable, Consistent;
    if Installs(s, i, p) {
      var s' := Next(s, i, p).0;
      var hooks := s'.cur.hooks;
      var layers := if i.files.Files? then i.files.layers else s.cur.layers;
      SnapshotParts(s.cur.version + 1, s'.d, layers, if i.files.Files? then i.files.hooks else s.cur.hooks, p, s.cur.effective);
      BuildIsReadable(s.cur.version + 1, s'.d, layers, if i.files.Files? then i.files.hooks else s.cur.hooks, p, s.cur.effective);
    } else {
      NothingInstalledNothingChanged(s, i, p);
    }
  }

  /**
   After any run, reading a setting that the environment does not supply gives the active snapshot's value just when a shipped value in
   the snapshot is still the one shipped.
   */
  lemma ReadsFollowSnapshotExactly(s: State, ins: seq<Input>, p: Process, k: string)
    requires Readable(s) && Complete(s) && ChecksLayers(s, ins, p) && k in Run(s, ins, p).d.sh.entries
    requires k in Run(s, ins, p).cur.effective && Run(s, ins, p).cur.effective[k].source !in {FromEnv, FromProject}
    ensures var s' := Run(s, ins, p);
      var r := s'.cur.effective[k];
      ToJson(Read(s', k)) == r.value <==> (r.source == FromDefault ==> r.value == ToJson(s'.d.sh.entries[k].value))
  {
    hide Run, Holdable, LeakValue, ChecksLayers;
    StaysReadable(s, ins, p);
    LeakReadsBack(Run(s, ins, p).cur.effective[k].value);
  }

  /** The values marked as shipped are the shipped ones, or another key's defaults changed under them. */
  ghost predicate ShippedAsMarked(s: State) {
    forall k :: k in s.cur.effective && k in s.d.sh.entries && s.cur.effective[k].source == FromDefault ==>
      s.cur.effective[k].value == ToJson(s.d.sh.entries[k].value)
  }

  ghost predicate SameDefaults(ins: seq<Input>) {
    forall n :: 0 <= n < |ins| ==> !ins[n].defaults.DefaultsNew?
  }

  lemma {:induction false} StaysAsMarked(s: State, ins: seq<Input>, p: Process)
    requires Complete(s) && ShippedAsMarked(s) && SameDefaults(ins)
    ensures ShippedAsMarked(Run(s, ins, p)) && Run(s, ins, p).d == s.d
  {
    hide OverlayOf, ResolveOne;
    if ins != [] {
      var n := |ins| - 1;
      StaysAsMarked(s, ins[..n], p);
      StaysComplete(s, ins[..n], p);
      MarkedOnce(Run(s, ins[..n], p), ins[n], p);
    }
  }

  lemma MarkedOnce(s: State, i: Input, p: Process)
    requires Complete(s) && ShippedAsMarked(s) && !i.defaults.DefaultsNew?
    ensures ShippedAsMarked(Next(s, i, p).0) && Next(s, i, p).0.d == s.d
  {
    hide OverlayOf, ResolveOne;
    forall k | k in s.d.sh.entries ensures var r := ResolveOne(s.d.sh, s.d.sh.entries[k], s.cur.layers, p.env, p.rd);
      r.source == FromDefault ==> r.value == ToJson(s.d.sh.entries[k].value) {
      NoProjectLayer(s.d.sh, s.d.sh.entries[k], s.cur.layers, p.env, p.rd);
    }
    if i.files.Files? {
      forall k | k in s.d.sh.entries ensures var r := ResolveOne(s.d.sh, s.d.sh.entries[k], i.files.layers, p.env, p.rd);
        r.source == FromDefault ==> r.value == ToJson(s.d.sh.entries[k].value) {
        NoProjectLayer(s.d.sh, s.d.sh.entries[k], i.files.layers, p.env, p.rd);
      }
    }
  }

  /** Under unchanged defaults, every read gives the active snapshot's value, unless the environment supplies it. */
  lemma ReadsFollowSnapshot(s: State, ins: seq<Input>, p: Process, k: string)
    requires Readable(s) && Complete(s) && ShippedAsMarked(s) && SameDefaults(ins) && ChecksLayers(s, ins, p)
    requires k in Run(s, ins, p).d.sh.entries && k in Run(s, ins, p).cur.effective
    requires Run(s, ins, p).cur.effective[k].source !in {FromEnv, FromProject}
    ensures ToJson(Read(Run(s, ins, p), k)) == Run(s, ins, p).cur.effective[k].value
  {
    StaysAsMarked(s, ins, p);
    ReadsFollowSnapshotExactly(s, ins, p, k);
  }

  // ---- where the reads and the checks part

  /** New defaults under a restart-only setting that no file sets: the snapshot holds the old shipped value, reads give the new one. */
  lemma HeldDefaultIsReadAnew(k: string, p: Process)
    ensures var d := Defaults(Shipped(map[k := Entry(k, Int(1), None, None, None)], _ => false), _ => true);
      var d' := Defaults(Shipped(map[k := Entry(k, Int(2), None, None, None)], _ => false), _ => true);
      var nothing := Layers(JNull, map[]);
      var s := Next(Start(d, nothing, JNull, None, p), Input(DefaultsNew(d'), Files(nothing, JNull)), p).0;
      k in s.cur.effective && s.cur.effective[k].value == JInt(1) && ToJson(Read(s, k)) == JInt(2)
  {
  }

  /**
   New defaults with files that cannot be read: the layers kept from the old snapshot are resolved without being checked again, and a
   value from them can be over the new bound.
   */
  lemma KeptLayersAreNotRechecked(k: string, n: I64, m: I64, p: Process)
    requires n > m
    ensures var d := Defaults(Shipped(map[k := Entry(k, Int(m), None, None, None)], _ => false), _ => false);
      var e := Entry(k, Int(m), None, None, Some(m));
      var d' := Defaults(Shipped(map[k := e], _ => false), _ => false);
      var layers := Layers(JNull, map[k := JInt(n)]);
      var s := Next(Start(d, layers, JNull, None, p), Input(DefaultsNew(d'), FilesInvalid("")), p).0;
      && ValidUser(d.sh, layers.user) && k in s.cur.effective
      && s.cur.effective[k].value == JInt(n) && !InRange(e, n)
  {
  }
}
