/** What a run of reloads leaves in effect: layers kept under new defaults, and shipped values held until the next start. */
module HeldValues {
  import opened Prelude
  import opened Values
  import opened LeakedValues
  import opened Settings
  import opened SettingOverlay
  import opened EffectiveReads
  import opened Reload
  import opened SnapshotReads

  // ---- layers kept under new defaults

  /** What a key resolves to from the layers and the defaults of a state. */
  function Asked(s: State, p: Process, k: string): Resolved
    requires k in s.d.sh.entries
  {
    ResolveOne(s.d.sh, s.d.sh.entries[k], s.cur.layers, p.env, p.rd)
  }

  /** Every setting that is not pending has the value its layers resolve to. */
  ghost predicate InEffect(s: State, p: Process) {
    Complete(s) && forall k :: k in s.d.sh.entries && k !in s.cur.pending ==> s.cur.effective[k] == Asked(s, p, k)
  }

  lemma StartIsInEffect(d: Defaults, layers: Layers, hooks: Json, err: Option<string>, p: Process)
    ensures InEffect(Start(d, layers, hooks, err, p), p)
  {
    hide ResolveOne, OverlayOf;
  }

  lemma BuiltIsInEffect(version: nat, d: Defaults, layers: Layers, hooks: Json, p: Process, running: map<string, Resolved>)
    ensures var s := Build(version, d, layers, hooks, p, running);
      && s.effective.Keys == d.sh.entries.Keys
      && forall k :: k in d.sh.entries && k !in s.pending ==> s.effective[k] == ResolveOne(d.sh, d.sh.entries[k], layers, p.env, p.rd)
  {
    hide ResolveOne;
  }

  lemma NextInEffect(s: State, i: Input, p: Process)
    requires InEffect(s, p)
    ensures InEffect(Next(s, i, p).0, p)
  {
    hide Build, OverlayOf, ResolveOne;
    if Installs(s, i, p) {
      var d := if i.defaults.DefaultsNew? then i.defaults.d else s.d;
      var (layers, hooks) := if i.files.Files? then (i.files.layers, i.files.hooks) else (s.cur.layers, s.cur.hooks);
      BuiltIsInEffect(s.cur.version + 1, d, layers, hooks, p, s.cur.effective);
      SnapshotParts(s.cur.version + 1, d, layers, hooks, p, s.cur.effective);
    } else {
      NothingInstalledNothingChanged(s, i, p);
    }
  }

  lemma {:induction false} StaysInEffect(s: State, ins: seq<Input>, p: Process)
    requires InEffect(s, p)
    ensures InEffect(Run(s, ins, p), p)
  {
    hide Next, InEffect;
    if ins != [] {
      StaysInEffect(s, ins[..|ins| - 1], p);
      NextInEffect(Run(s, ins[..|ins| - 1], p), ins[|ins| - 1], p);
    }
  }

  /** No reload of the run could read the files. */
  predicate FilesUnreadable(ins: seq<Input>) {
    forall n :: 0 <= n < |ins| ==> ins[n].files.FilesInvalid?
  }

  lemma {:induction false} UnreadableKeepsLayers(s: State, ins: seq<Input>, p: Process)
    requires FilesUnreadable(ins)
    ensures Run(s, ins, p).cur.layers == s.cur.layers
  {
    hide Build, OverlayOf;
    if ins != [] {
      var n := |ins| - 1;
      UnreadableKeepsLayers(s, ins[..n], p);
      var before := Run(s, ins[..n], p);
      var d := if ins[n].defaults.DefaultsNew? then ins[n].defaults.d else before.d;
      SnapshotParts(before.cur.version + 1, d, before.cur.layers, before.cur.hooks, p, before.cur.effective);
    }
  }

  /**
   From any start and after any reloads: while the files cannot be read, whatever defaults are adopted meanwhile, a numeric setting that
   is not pending is within the bounds now shipped if and only if the value shipped now is when that is what is used, and the number in
   the layers kept from before is when the user file's is used.
   */
  lemma KeptLayersInRangeExactly(
    d: Defaults, layers: Layers, hooks: Json, err: Option<string>, read: seq<Input>, unread: seq<Input>, p: Process, k: string)
    requires FilesUnreadable(unread)
    requires var s := Run(Run(Start(d, layers, hooks, err, p), read, p), unread, p);
      k in s.d.sh.entries && k !in s.cur.pending && s.d.sh.entries[k].value.Int? && Bounded(s.d.sh.entries[k])
    ensures var kept := Run(Start(d, layers, hooks, err, p), read, p).cur.layers;
      var s := Run(Run(Start(d, layers, hooks, err, p), read, p), unread, p);
      var e := s.d.sh.entries[k];
      var source := ResolveOne(s.d.sh, e, kept, p.env, p.rd).source;
      && k in s.cur.effective && (source == FromUserFile ==> e.key in kept.user)
      && (NumberInRange(e, s.cur.effective[k].value) <==>
            && (source == FromDefault ==> InRange(e, e.value.n))
            && (source == FromUserFile ==> NumberInRange(e, kept.user[e.key])))
  {
    hide Run, Start, OverlayOf, OfEnv, OfSettings;
    var first := Start(d, layers, hooks, err, p);
    var before := Run(first, read, p);
    StartIsInEffect(d, layers, hooks, err, p);
    StaysInEffect(first, read, p);
    StaysInEffect(before, unread, p);
    UnreadableKeepsLayers(before, unread, p);
    var s := Run(before, unread, p);
    ResolvedInRangeExactly(s.d.sh, s.d.sh.entries[k], before.cur.layers, p.env, p.rd);
  }

  // ---- values that wait

  /** A setting pending after a reload keeps the value it had before. */
  lemma WaitsWithItsValue(s: State, i: Input, p: Process, k: string)
    requires k in Next(s, i, p).0.cur.pending && (k in s.cur.pending ==> k in s.cur.effective)
    ensures k in s.cur.effective && k in Next(s, i, p).0.cur.effective
    ensures Next(s, i, p).0.cur.effective[k].value == s.cur.effective[k].value
  {
    hide OverlayOf, ResolveOne;
  }

  lemma {:induction false} PendingHasValue(
    d: Defaults, layers: Layers, hooks: Json, err: Option<string>, ins: seq<Input>, p: Process, k: string)
    ensures var s := Run(Start(d, layers, hooks, err, p), ins, p); k in s.cur.pending ==> k in s.cur.effective
  {
    hide OverlayOf, ResolveOne, Next;
    if ins == [] {
      StartIsInEffect(d, layers, hooks, err, p);
    } else {
      var n := |ins| - 1;
      PendingHasValue(d, layers, hooks, err, ins[..n], p, k);
      var s := Run(Start(d, layers, hooks, err, p), ins[..n], p);
      if k in Next(s, ins[n], p).0.cur.pending {
        WaitsWithItsValue(s, ins[n], p, k);
      }
    }
  }

  /** After the first `m` reloads the setting was in force, and it has been pending after every one since. */
  ghost predicate LastInForce(first: State, ins: seq<Input>, p: Process, k: string, m: nat) {
    && m < |ins| && k in Run(first, ins[..m], p).d.sh.entries && k !in Run(first, ins[..m], p).cur.pending
    && forall n :: m < n <= |ins| ==> k in Run(first, ins[..n], p).cur.pending
  }

  /** A pending setting has the value that was asked for when it was last in force. */
  lemma {:induction false} PendingIsLastInForce(
    d: Defaults, layers: Layers, hooks: Json, err: Option<string>, ins: seq<Input>, p: Process, k: string) returns (m: nat)
    requires k in Run(Start(d, layers, hooks, err, p), ins, p).cur.pending
    ensures var first := Start(d, layers, hooks, err, p);
      && LastInForce(first, ins, p, k, m)
      && k in Run(first, ins, p).cur.effective
      && Run(first, ins, p).cur.effective[k].value == Asked(Run(first, ins[..m], p), p, k).value
  {
    var first, n := Start(d, layers, hooks, err, p), |ins| - 1;
    NothingPendingAtStart(d, layers, hooks, err, p);
    hide OverlayOf, ResolveOne, Next, Start, Asked;
    var before := Run(first, ins[..n], p);
    PendingHasValue(d, layers, hooks, err, ins[..n], p, k);
    WaitsWithItsValue(before, ins[n], p, k);
    assert ins[..|ins|] == ins;
    if k in before.cur.pending {
      m := PendingIsLastInForce(d, layers, hooks, err, ins[..n], p, k);
      assert forall q :: 0 <= q <= n ==> ins[..n][..q] == ins[..q];
    } else {
      m := n;
      StartIsInEffect(d, layers, hooks, err, p);
      StaysInEffect(first, ins[..n], p);
    }
  }

  lemma NothingPendingAtStart(d: Defaults, layers: Layers, hooks: Json, err: Option<string>, p: Process)
    ensures Start(d, layers, hooks, err, p).cur.pending == {}
  {
    hide ResolveOne, OverlayOf;
  }

  /** So it is within the bounds now shipped if and only if what was asked for then is, by those bounds. */
  lemma PendingInRangeExactly(
    d: Defaults, layers: Layers, hooks: Json, err: Option<string>, ins: seq<Input>, p: Process, k: string) returns (m: nat)
    requires var s := Run(Start(d, layers, hooks, err, p), ins, p); k in s.d.sh.entries && k in s.cur.pending
    ensures var first := Start(d, layers, hooks, err, p);
      var e := Run(first, ins, p).d.sh.entries[k];
      && LastInForce(first, ins, p, k, m) && k in Run(first, ins, p).cur.effective
      && (NumberInRange(e, Run(first, ins, p).cur.effective[k].value) <==> NumberInRange(e, Asked(Run(first, ins[..m], p), p, k).value))
  {
    hide Run, Start, Asked, LastInForce;
    m := PendingIsLastInForce(d, layers, hooks, err, ins, p, k);
  }

  /** From any start and after any reloads, a setting that is not pending has the value its layers and defaults resolve to. */
  lemma RunsAreInEffect(d: Defaults, layers: Layers, hooks: Json, err: Option<string>, ins: seq<Input>, p: Process)
    ensures InEffect(Run(Start(d, layers, hooks, err, p), ins, p), p)
  {
    StartIsInEffect(d, layers, hooks, err, p);
    StaysInEffect(Start(d, layers, hooks, err, p), ins, p);
  }

  // ---- shipped values held until the next start

  /** The layer that supplied the first load's value, the last time a reload that installed asked for that value. */
  function HeldSource(s: State, ins: seq<Input>, p: Process, k: string): Source
    requires k in s.cur.effective
  {
    if ins == [] then s.cur.effective[k].source else
      var n := |ins| - 1;
      var after := Run(s, ins, p);
      if Installs(Run(s, ins[..n], p), ins[n], p) && k in after.d.sh.entries && Asked(after, p, k).value == s.cur.effective[k].value
      then Asked(after, p, k).source
      else HeldSource(s, ins[..n], p, k)
  }

  lemma HeldOnce(s: State, i: Input, p: Process, k: string)
    requires k in s.cur.effective && k in s.d.sh.entries
    requires var s' := Next(s, i, p).0; k in s'.d.sh.entries && s'.d.restartOnly(k)
    ensures var s' := Next(s, i, p).0;
      && k in s'.cur.effective
      && s'.cur.effective[k].source ==
         if Installs(s, i, p) && Asked(s', p, k).value == s.cur.effective[k].value then Asked(s', p, k).source else s.cur.effective[k].source
  {
    hide OverlayOf, ResolveOne;
  }

  lemma {:induction false} HeldSourceIsKept(s: State, ins: seq<Input>, p: Process, k: string)
    requires Complete(s) && AlwaysRestartOnly(s, ins, p, k)
    ensures k in s.cur.effective && k in Run(s, ins, p).cur.effective
    ensures Run(s, ins, p).cur.effective[k].source == HeldSource(s, ins, p, k)
  {
    hide OverlayOf, ResolveOne, Next, Installs, Asked;
    RestartOnlyHolds(s, ins, p, k);
    StaysComplete(s, ins, p);
    if ins != [] {
      var n := |ins| - 1;
      assert forall m :: 0 <= m <= n ==> ins[..n][..m] == ins[..m];
      assert ins[..|ins|] == ins && DefaultsAfter(s, ins[..|ins|], p) == Run(s, ins, p).d;
      assert DefaultsAfter(s, ins[..n], p) == Run(s, ins[..n], p).d;
      HeldSourceIsKept(s, ins[..n], p, k);
      RestartOnlyHolds(s, ins[..n], p, k);
      HeldOnce(Run(s, ins[..n], p), ins[n], p, k);
    }
  }

  /**
   A setting restart-only all along that the environment does not supply: after any run, reading it gives the value the snapshot holds if
   and only if a file gave that value when it was last asked for, or the shipped value is again that of the first load.
   */
  lemma HeldIsReadExactly(s: State, ins: seq<Input>, p: Process, k: string)
    requires Readable(s) && Complete(s) && ChecksLayers(s, ins, p) && AlwaysRestartOnly(s, ins, p, k)
    ensures k in s.cur.effective && k in Run(s, ins, p).d.sh.entries && k in Run(s, ins, p).cur.effective
    ensures HeldSource(s, ins, p, k) !in {FromEnv, FromProject} ==>
      var s' := Run(s, ins, p);
      ToJson(Read(s', k)) == s'.cur.effective[k].value <==>
        HeldSource(s, ins, p, k) != FromDefault || ToJson(s'.d.sh.entries[k].value) == s.cur.effective[k].value
  {
    RestartOnlyHolds(s, ins, p, k);
    StaysComplete(s, ins, p);
    assert ins[..|ins|] == ins && DefaultsAfter(s, ins[..|ins|], p) == Run(s, ins, p).d;
    HeldSourceIsKept(s, ins, p, k);
    if HeldSource(s, ins, p, k) !in {FromEnv, FromProject} {
      ReadsFollowSnapshotExactly(s, ins, p, k);
    }
  }

  /** Neither a file nor the environment supplies `k` to any reload of the run that installs. */
  ghost predicate NeverSupplied(s: State, ins: seq<Input>, p: Process, k: string) {
    forall n :: 0 <= n < |ins| && Installs(Run(s, ins[..n], p), ins[n], p) ==>
      var after := Run(s, ins[..n + 1], p); k in after.d.sh.entries ==> Asked(after, p, k).source == FromDefault
  }

  lemma {:induction false} NeverSuppliedIsShipped(s: State, ins: seq<Input>, p: Process, k: string)
    requires k in s.cur.effective && s.cur.effective[k].source == FromDefault && NeverSupplied(s, ins, p, k)
    ensures HeldSource(s, ins, p, k) == FromDefault
  {
    hide Run, Installs, Asked;
    if ins != [] {
      var n := |ins| - 1;
      assert forall m :: 0 <= m <= n ==> ins[..n][..m] == ins[..m];
      assert ins[..n + 1] == ins;
      NeverSuppliedIsShipped(s, ins[..n], p, k);
    }
  }

  /** In particular, of one that only the shipped files ever supply: if and only if its shipped value is again that of the first load. */
  lemma HeldShippedIsReadExactly(
    d: Defaults, layers: Layers, hooks: Json, err: Option<string>, ins: seq<Input>, p: Process, k: string)
    requires var s := Start(d, layers, hooks, err, p);
      && Consistent(d.sh, layers) && ChecksLayers(s, ins, p) && AlwaysRestartOnly(s, ins, p, k) && NeverSupplied(s, ins, p, k)
    requires k in d.sh.entries && ResolveOne(d.sh, d.sh.entries[k], layers, p.env, p.rd).source == FromDefault
    ensures var s := Start(d, layers, hooks, err, p);
      var s' := Run(s, ins, p);
      && k in s'.d.sh.entries && k in s'.cur.effective
      && (ToJson(Read(s', k)) == s'.cur.effective[k].value <==> ToJson(s'.d.sh.entries[k].value) == ToJson(d.sh.entries[k].value))
  {
    hide Run, ChecksLayers, AlwaysRestartOnly, Holdable, NeverSupplied, OverlayOf, ResolveOne, Consistent;
    var s := Start(d, layers, hooks, err, p);
    BuildIsReadable(1, d, layers, hooks, p, map[]);
    StartIsInEffect(d, layers, hooks, err, p);
    StartIsResolved(d, layers, hooks, err, p, k);
    NoProjectLayer(d.sh, d.sh.entries[k], layers, p.env, p.rd);
    NeverSuppliedIsShipped(s, ins, p, k);
    HeldIsReadExactly(s, ins, p, k);
  }
}
