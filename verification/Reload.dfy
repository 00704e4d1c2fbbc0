/** The active configuration and its reloads: one snapshot at a time, swapped only for a valid and different one. */
module Reload {
  import opened Prelude
  import opened Values
  import opened Settings
  import opened SettingOverlay

  /** The shipped defaults in use, and the settings that take effect only at the next start. */
  datatype Defaults = Defaults(sh: Shipped, restartOnly: string -> bool)

  datatype Snapshot = Snapshot(
    version: nat,
    effective: map<string, Resolved>,
    pending: set<string>,
    hooks: Json,
    lastError: Option<string>,
    layers: Layers)

  /** What reading the defaults, and then the two files, came to. */
  datatype DefaultsRead = DefaultsInvalid(code: string) | DefaultsSame | DefaultsNew(d: Defaults)

  datatype FilesRead = FilesInvalid(code: string) | Files(layers: Layers, hooks: Json)

  datatype Input = Input(defaults: DefaultsRead, files: FilesRead)

  datatype Outcome = Applied(version: nat) | Unchanged | Invalid(code: string)

  /** The process's own environment and its way of reading texts, fixed for its life. */
  datatype Process = Process(env: Env, rd: Reading)

  function ResolveAll(d: Defaults, layers: Layers, p: Process): map<string, Resolved> {
    Effective(d.sh, layers, p.env, p.rd)
  }

  // ---- a snapshot

  /** A restart-only setting whose new value differs from the running one: it waits for the next start. */
  predicate Waits(d: Defaults, k: string, r: Resolved, running: map<string, Resolved>) {
    d.restartOnly(k) && k in running && running[k].value != r.value
  }

  function Build(version: nat, d: Defaults, layers: Layers, hooks: Json, p: Process, running: map<string, Resolved>): Snapshot {
    var all := ResolveAll(d, layers, p);
    Snapshot(version,
             (map k | k in all :: if Waits(d, k, all[k], running) then running[k] else all[k]),
             (set k | k in all && Waits(d, k, all[k], running)),
             hooks, None, layers)
  }

  method RunBuild(version: nat, d: Defaults, layers: Layers, hooks: Json, p: Process, prev: Option<Snapshot>) returns (s: Snapshot)
    ensures s == Build(version, d, layers, hooks, p, if prev.Some? then prev.value.effective else map[])
  {
    hide Effective;
    var all := ResolveAll(d, layers, p);
    var effective, pending: set<string> := all, {};
    if prev.Some? {
      var running := prev.value.effective;
      var rest := all.Keys;
      while rest != {}
        invariant rest <= all.Keys == effective.Keys
        invariant forall k :: k in all ==> effective[k] == if k !in rest && Waits(d, k, all[k], running) then running[k] else all[k]
        invariant pending == set k | k in all && k !in rest && Waits(d, k, all[k], running)
      {
        var k :| k in rest;
        if d.restartOnly(k) && k in running && running[k].value != effective[k].value {
          pending := pending + {k};
          effective := effective[k := running[k]];
        }
        rest := rest - {k};
      }
    }
    s := Snapshot(version, effective, pending, hooks, None, layers);
    assert prev.None? ==> s.effective == Build(version, d, layers, hooks, p, map[]).effective
                          && s.pending == Build(version, d, layers, hooks, p, map[]).pending;
    assert prev.Some? ==> s.effective == Build(version, d, layers, hooks, p, prev.value.effective).effective;
  }

  // ---- the store

  /** The defaults in use, the active snapshot and the overlay that the settings accessors read. */
  datatype State = State(d: Defaults, cur: Snapshot, overlay: map<string, Json>)

  function Start(d: Defaults, layers: Layers, hooks: Json, err: Option<string>, p: Process): State {
    var s := Build(1, d, layers, hooks, p, map[]).(lastError := err);
    State(d, s, OverlayOf(s.effective))
  }

  function Next(s: State, i: Input, p: Process): (State, Outcome) {
    if i.defaults.DefaultsInvalid? then
      (s.(cur := s.cur.(lastError := Some(i.defaults.code))), Invalid(i.defaults.code))
    else
      var d := if i.defaults.DefaultsNew? then i.defaults.d else s.d;
      if i.files.FilesInvalid? && i.defaults.DefaultsSame? then
        (s.(cur := s.cur.(lastError := Some(i.files.code))), Invalid(i.files.code))
      else
        var (layers, hooks) := if i.files.Files? then (i.files.layers, i.files.hooks) else (s.cur.layers, s.cur.hooks);
        var next := Build(s.cur.version + 1, d, layers, hooks, p, s.cur.effective);
        if i.defaults.DefaultsSame? && next.effective == s.cur.effective && next.hooks == s.cur.hooks && next.pending == s.cur.pending
           && s.cur.lastError.None? then (s, Unchanged)
        else if i.files.FilesInvalid? then
          (State(d, next.(lastError := Some(i.files.code)), OverlayOf(next.effective)), Invalid(i.files.code))
        else (State(d, next, OverlayOf(next.effective)), Outcome.Applied(next.version))
  }

  class ConfigStore {
    var d: Defaults
    var cur: Snapshot
    var overlay: map<string, Json>
    const p: Process

    function Now(): State
      reads this
    {
      State(d, cur, overlay)
    }

    /** The first load, published as the overlay. */
    constructor (d: Defaults, layers: Layers, hooks: Json, err: Option<string>, p: Process)
      ensures Now() == Start(d, layers, hooks, err, p) && this.p == p
    {
      var s := RunBuild(1, d, layers, hooks, p, None);
      this.d, this.p := d, p;
      cur := s.(lastError := err);
      overlay := OverlayOf(s.effective);
    }

    /** Swap a snapshot in, and into the overlay. */
    method Install(next: Snapshot)
      modifies this`cur, this`overlay
      ensures cur == next && overlay == OverlayOf(next.effective)
    {
      cur := next;
      overlay := OverlayOf(next.effective);
    }

    method Reload(i: Input) returns (r: Outcome)
      modifies this
      ensures (Now(), r) == Next(old(Now()), i, p)
    {
      hide Build, OverlayOf;
      var prev := cur;
      if i.defaults.DefaultsInvalid? {
        cur := prev.(lastError := Some(i.defaults.code));
        return Invalid(i.defaults.code);
      }
      var changedDefaults := i.defaults.DefaultsNew?;
      if changedDefaults {
        d := i.defaults.d;
      }
      var layers, hooks := prev.layers, prev.hooks;
      if i.files.Files? {
        layers, hooks := i.files.layers, i.files.hooks;
      } else if !changedDefaults {
        cur := prev.(lastError := Some(i.files.code));
        return Invalid(i.files.code);
      }
      var next := RunBuild(prev.version + 1, d, layers, hooks, p, Some(prev));
      SnapshotParts(prev.version + 1, d, layers, hooks, p, prev.effective);
      if i.files.FilesInvalid? {
        next := next.(lastError := Some(i.files.code));
      }
      if !changedDefaults && next.effective == prev.effective && next.hooks == prev.hooks && next.pending == prev.pending && prev.lastError.None? {
        return Unchanged;
      }
      Install(next);
      r := if i.files.FilesInvalid? then Invalid(i.files.code) else Outcome.Applied(next.version);
    }
  }

  lemma SnapshotParts(version: nat, d: Defaults, layers: Layers, hooks: Json, p: Process, running: map<string, Resolved>)
    ensures var s := Build(version, d, layers, hooks, p, running);
      s.version == version && s.hooks == hooks && s.layers == layers && s.lastError == None
  {
  }

  // ---- runs of reloads

  function Run(s: State, ins: seq<Input>, p: Process): State {
    if ins == [] then s else Next(Run(s, ins[..|ins| - 1], p), ins[|ins| - 1], p).0
  }

  /** Does this reload install a snapshot? */
  predicate Installs(s: State, i: Input, p: Process) {
    Next(s, i, p).1.Applied? || (i.defaults.DefaultsNew? && i.files.FilesInvalid?)
  }

  function CountInstalls(s: State, ins: seq<Input>, p: Process): nat {
    if ins == [] then 0 else
      var n := |ins| - 1;
      CountInstalls(s, ins[..n], p) + if Installs(Run(s, ins[..n], p), ins[n], p) then 1 else 0
  }

  /** The version counts the snapshots installed. */
  lemma {:induction false} VersionCountsInstalls(s: State, ins: seq<Input>, p: Process)
    ensures Run(s, ins, p).cur.version == s.cur.version + CountInstalls(s, ins, p)
  {
    if ins != [] {
      VersionCountsInstalls(s, ins[..|ins| - 1], p);
    }
  }

  /** A reload that installs nothing changes no effective value, no pending setting and not the overlay; nor does it use new defaults. */
  lemma NothingInstalledNothingChanged(s: State, i: Input, p: Process)
    requires !Installs(s, i, p)
    ensures var s' := Next(s, i, p).0;
      s' == s.(cur := s.cur.(lastError := s'.cur.lastError))
  {
  }

  /** Invalid files under unchanged defaults, or invalid defaults, install nothing; the error is kept. */
  lemma InvalidInstallsNothing(s: State, i: Input, p: Process)
    requires i.defaults.DefaultsInvalid? || (i.defaults.DefaultsSame? && i.files.FilesInvalid?)
    ensures !Installs(s, i, p) && Next(s, i, p).1.Invalid? && Next(s, i, p).0.cur.lastError == Some(Next(s, i, p).1.code)
  {
  }

  /** The input can install nothing. */
  predicate Unusable(i: Input) {
    i.defaults.DefaultsInvalid? || (i.defaults.DefaultsSame? && i.files.FilesInvalid?)
  }

  /** Over a run that installs no snapshot, nothing but the last error changes: what is in effect, pending and read stays as it was. */
  lemma {:induction false} NoInstallNoChange(s: State, ins: seq<Input>, p: Process)
    requires CountInstalls(s, ins, p) == 0
    ensures var s' := Run(s, ins, p); s' == s.(cur := s.cur.(lastError := s'.cur.lastError))
  {
    hide Build, OverlayOf;
    if ins != [] {
      var n := |ins| - 1;
      NoInstallNoChange(s, ins[..n], p);
      NothingInstalledNothingChanged(Run(s, ins[..n], p), ins[n], p);
    }
  }

  /** However often invalid defaults, or invalid files under unchanged defaults, are read, nothing is installed or changed but the error. */
  lemma {:induction false} UnusableRunsChangeNothing(s: State, ins: seq<Input>, p: Process)
    requires forall i :: 0 <= i < |ins| ==> Unusable(ins[i])
    ensures CountInstalls(s, ins, p) == 0
    ensures var s' := Run(s, ins, p);
      && s' == s.(cur := s.cur.(lastError := s'.cur.lastError))
      && (s'.cur.lastError.None? ==> ins == [] && s.cur.lastError.None?)
  {
    hide Build, OverlayOf;
    if ins != [] {
      var n := |ins| - 1;
      UnusableRunsChangeNothing(s, ins[..n], p);
      InvalidInstallsNothing(Run(s, ins[..n], p), ins[n], p);
      NothingInstalledNothingChanged(Run(s, ins[..n], p), ins[n], p);
    }
  }

  /** The hooks of the last files read under defaults that were not invalid; those of the start where none were. */
  function LastHooks(s: State, ins: seq<Input>): Json {
    if ins == [] then s.cur.hooks else
      var i := ins[|ins| - 1];
      if !i.defaults.DefaultsInvalid? && i.files.Files? then i.files.hooks else LastHooks(s, ins[..|ins| - 1])
  }

  /** After any run the hooks in force are those of the last files that could be read. */
  lemma {:induction false} HooksAreOfLastRead(s: State, ins: seq<Input>, p: Process)
    ensures Run(s, ins, p).cur.hooks == LastHooks(s, ins)
  {
    hide ResolveAll, OverlayOf;
    if ins != [] {
      HooksAreOfLastRead(s, ins[..|ins| - 1], p);
    }
  }

  /** The defaults of the last input that gives any; those of the start where none does. */
  function LastDefaults(s: State, ins: seq<Input>): Defaults {
    if ins == [] then s.d else
      var i := ins[|ins| - 1];
      if i.defaults.DefaultsNew? then i.defaults.d else LastDefaults(s, ins[..|ins| - 1])
  }

  lemma {:induction false} DefaultsAreOfLastGiven(s: State, ins: seq<Input>, p: Process)
    ensures Run(s, ins, p).d == LastDefaults(s, ins)
  {
    hide ResolveAll, OverlayOf;
    if ins != [] {
      DefaultsAreOfLastGiven(s, ins[..|ins| - 1], p);
    }
  }

  /** The defaults a reload leaves in use. */
  function DefaultsAfter(s: State, ins: seq<Input>, p: Process): Defaults {
    Run(s, ins, p).d
  }

  /** `k` is shipped and restart-only under the defaults of every state of the run. */
  ghost predicate AlwaysRestartOnly(s: State, ins: seq<Input>, p: Process, k: string) {
    forall n :: 0 <= n <= |ins| ==> var d := DefaultsAfter(s, ins[..n], p); k in d.sh.entries && d.restartOnly(k)
  }

  /** Every snapshot holds just the shipped settings. */
  ghost predicate Complete(s: State) {
    s.cur.effective.Keys == s.d.sh.entries.Keys
  }

  lemma {:induction false} StaysComplete(s: State, ins: seq<Input>, p: Process)
    requires Complete(s)
    ensures Complete(Run(s, ins, p))
  {
    if ins != [] {
      StaysComplete(s, ins[..|ins| - 1], p);
    }
  }

  /** A setting that is restart-only all along keeps the value of the first load. */
  lemma {:induction false} RestartOnlyHolds(s: State, ins: seq<Input>, p: Process, k: string)
    requires Complete(s) && AlwaysRestartOnly(s, ins, p, k)
    ensures k in s.cur.effective && k in Run(s, ins, p).cur.effective
    ensures Run(s, ins, p).cur.effective[k].value == s.cur.effective[k].value
  {
    hide ResolveAll, OverlayOf;
    assert ins[..|ins|] == ins && ins[..0] == [];
    assert DefaultsAfter(s, ins[..0], p) == s.d && DefaultsAfter(s, ins[..|ins|], p) == Run(s, ins, p).d;
    StaysComplete(s, ins, p);
    if ins != [] {
      var n := |ins| - 1;
      forall m | 0 <= m <= n ensures ins[..n][..m] == ins[..m] {
      }
      RestartOnlyHolds(s, ins[..n], p, k);
      HoldsOnce(Run(s, ins[..n], p), ins[n], p, k);
    }
  }

  lemma HoldsOnce(s: State, i: Input, p: Process, k: string)
    requires k in s.cur.effective && k in Next(s, i, p).0.cur.effective && Next(s, i, p).0.d.restartOnly(k)
    ensures Next(s, i, p).0.cur.effective[k].value == s.cur.effective[k].value
  {
    hide ResolveAll, OverlayOf;
  }

  /** What is resolved for a key from the layers and defaults of a state. */
  function Wanted(s: State, p: Process, k: string): Json
    requires k in s.d.sh.entries
  {
    ResolveOne(s.d.sh, s.d.sh.entries[k], s.cur.layers, p.env, p.rd).value
  }

  /** After any run, a setting that is restart-only all along is pending just when the files now ask for another value than the first load's. */
  lemma {:induction false} PendingExactly(s: State, ins: seq<Input>, p: Process, k: string)
    requires Complete(s) && AlwaysRestartOnly(s, ins, p, k) && k in s.d.sh.entries && (k in s.cur.pending <==> Wanted(s, p, k) != s.cur.effective[k].value)
    ensures var s' := Run(s, ins, p);
      k in s'.d.sh.entries && (k in s'.cur.pending <==> Wanted(s', p, k) != s.cur.effective[k].value)
  {
    hide OverlayOf, ResolveOne;
    RestartOnlyHolds(s, ins, p, k);
    StaysComplete(s, ins, p);
    if ins != [] {
      var n := |ins| - 1;
      assert forall m :: 0 <= m <= n ==> ins[..n][..m] == ins[..m];
      assert ins[..|ins|] == ins && DefaultsAfter(s, ins[..|ins|], p) == Run(s, ins, p).d;
      PendingExactly(s, ins[..n], p, k);
      RestartOnlyHolds(s, ins[..n], p, k);
      PendingOnce(Run(s, ins[..n], p), ins[n], p, k);
    }
  }

  lemma PendingOnce(s: State, i: Input, p: Process, k: string)
    requires k in s.cur.effective && k in s.d.sh.entries
    requires var s' := Next(s, i, p).0; k in s'.d.sh.entries && s'.d.restartOnly(k)
    requires k in s.cur.pending <==> Wanted(s, p, k) != s.cur.effective[k].value
    ensures var s' := Next(s, i, p).0; k in s'.cur.pending <==> Wanted(s', p, k) != s.cur.effective[k].value
  {
    hide OverlayOf, ResolveOne;
  }

  /** At the first load nothing is pending and everything reads as resolved, so the two laws above hold of every run from it. */
  lemma StartIsResolved(d: Defaults, layers: Layers, hooks: Json, err: Option<string>, p: Process, k: string)
    requires k in d.sh.entries
    ensures var s := Start(d, layers, hooks, err, p);
      && Complete(s) && s.cur.version == 1 && s.cur.pending == {} && k in s.cur.effective && Wanted(s, p, k) == s.cur.effective[k].value
  {
    hide ResolveOne, OverlayOf;
    assert Start(d, layers, hooks, err, p).cur.effective == ResolveAll(d, layers, p);
  }

  /** After a reload that could read its files, a setting's effective value is what the files ask for just when it is not pending. */
  lemma ReadFilesTakeEffect(s: State, i: Input, p: Process, k: string)
    requires !i.defaults.DefaultsInvalid? && i.files.Files? && k in Next(s, i, p).0.d.sh.entries
    ensures var s' := Next(s, i, p).0;
      && k in s'.cur.effective
      && (k in s'.cur.pending <==> s'.cur.effective[k].value != ResolveOne(s'.d.sh, s'.d.sh.entries[k], i.files.layers, p.env, p.rd).value)
      && (k !in s'.cur.pending ==> s'.cur.effective[k] == ResolveOne(s'.d.sh, s'.d.sh.entries[k], i.files.layers, p.env, p.rd))
  {
    hide OverlayOf, ResolveOne;
  }

  // ---- reloading again

  /** Build over a snapshot what it was built from: the same effective values and the same pending settings. */
  lemma BuildAgain(version: nat, d: Defaults, layers: Layers, hooks: Json, p: Process, running: map<string, Resolved>, again: nat)
    ensures var s := Build(version, d, layers, hooks, p, running);
      var t := Build(again, d, layers, hooks, p, s.effective);
      t.effective == s.effective && (forall k :: k in t.pending ==> k in s.pending) && (forall k :: k in s.pending ==> k in t.pending)
  {
    hide Effective;
  }

  /** Reading the same valid files and defaults a second time installs nothing and changes nothing. */
  lemma ReloadSettles(s: State, i: Input, p: Process)
    requires i.defaults.DefaultsSame? && i.files.Files?
    ensures var s' := Next(s, i, p).0;
      Next(s', i, p) == (s', Outcome.Unchanged)
  {
    hide ResolveAll, OverlayOf;
    var s' := Next(s, i, p).0;
    if Next(s, i, p).1.Applied? {
      BuildAgain(s.cur.version + 1, s.d, i.files.layers, i.files.hooks, p, s.cur.effective, s'.cur.version + 1);
      assert Build(s'.cur.version + 1, s.d, i.files.layers, i.files.hooks, p, s'.cur.effective).pending == s'.cur.pending;
    }
  }

  // ---- the overlay and the snapshot

  /** The installed overlay is always the one of the active snapshot. */
  lemma {:induction false} OverlayFollows(s: State, ins: seq<Input>, p: Process)
    requires s.overlay == OverlayOf(s.cur.effective)
    ensures Run(s, ins, p).overlay == OverlayOf(Run(s, ins, p).cur.effective)
  {
    hide OverlayOf, Build;
    if ins != [] {
      OverlayFollows(s, ins[..|ins| - 1], p);
    }
  }
}
