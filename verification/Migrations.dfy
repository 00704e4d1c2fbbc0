/** Bringing a database file up to the schema a build knows: each migration once, in order, in a transaction with its version bump. */
module Migrations {
  import opened Prelude

  /** The version the file records, and the batches of statements that were committed to it. */
  datatype File = File(version: int, batches: seq<string>)

  datatype Refusal = Newer(found: int, known: nat) | Failed(at: nat)

  /** Where a run is cut short, by an error or a crash: before the migration of that number commits. */
  type Cut = Option<nat>

  /** The migrations from `i` on that commit before the cut. */
  function Advance(f: File, known: seq<string>, i: nat, cut: Cut): (File, Result<(), Refusal>)
    requires i <= |known|
    decreases |known| - i
  {
    if i == |known| then (f, Ok(()))
    else if cut == Some(i) then (f, Err(Failed(i)))
    else Advance(File(i + 1, f.batches + [known[i]]), known, i + 1, cut)
  }

  function Migrate(f: File, known: seq<string>, cut: Cut): (File, Result<(), Refusal>) {
    if f.version > |known| then (f, Err(Newer(f.version, |known|))) else Advance(f, known, Max(f.version, 0), cut)
  }

  class Connection {
    var version: int
    var batches: seq<string>

    function Now(): File
      reads this
    {
      File(version, batches)
    }

    constructor (f: File)
      ensures Now() == f
    {
      version, batches := f.version, f.batches;
    }

    /** One migration and its version bump, both or neither. */
    method Commit(i: nat, batch: string, cut: Cut) returns (ok: bool)
      modifies this
      ensures ok <==> cut != Some(i)
      ensures Now() == if ok then File(i + 1, old(batches) + [batch]) else old(Now())
    {
      if cut == Some(i) {
        return false;
      }
      batches := batches + [batch];
      version := i + 1;
      ok := true;
    }

    method RunMigrate(known: seq<string>, cut: Cut) returns (r: Result<(), Refusal>)
      modifies this
      ensures (Now(), r) == Migrate(old(Now()), known, cut)
    {
      var have := version;
      if have > |known| {
        return Err(Newer(have, |known|));
      }
      var start := Max(have, 0);
      for i := start to |known|
        invariant Advance(Now(), known, i, cut) == Advance(old(Now()), known, start, cut)
      {
        var ok := Commit(i, known[i], cut);
        if !ok {
          return Err(Failed(i));
        }
      }
      r := Ok(());
    }
  }

  /** One opening of the file by a build that knows the first `known` migrations of the history. */
  datatype Opening = Opening(known: nat, cut: Cut)

  /** Migrations are only ever appended, so every build knows a first part of one history. */
  ghost predicate Builds(history: seq<string>, os: seq<Opening>) {
    forall i :: 0 <= i < |os| ==> os[i].known <= |history|
  }

  function After(history: seq<string>, os: seq<Opening>): File
    requires Builds(history, os)
  {
    if os == [] then File(0, []) else
      var n := |os| - 1;
      Migrate(After(history, os[..n]), history[..os[n].known], os[n].cut).0
  }

  /** The file holds just the migrations its version counts, each once and in order. */
  ghost predicate Exact(history: seq<string>, f: File) {
    0 <= f.version <= |history| && f.batches == history[..f.version]
  }

  lemma {:induction false} AdvanceIsExact(history: seq<string>, known: nat, f: File, cut: Cut)
    requires Exact(history, f) && f.version <= known <= |history|
    ensures var (g, r) := Advance(f, history[..known], f.version, cut);
      && Exact(history, g) && f.version <= g.version <= known
      && (r.Ok? <==> g.version == known) && (r.Err? ==> cut == Some(g.version) && r.error == Failed(g.version))
    decreases known - f.version
  {
    if f.version < known && cut != Some(f.version) {
      var next := File(f.version + 1, f.batches + [history[..known][f.version]]);
      assert history[..f.version + 1] == history[..f.version] + [history[f.version]];
      AdvanceIsExact(history, known, next, cut);
    }
  }

  /**
   However often the file is opened, by whichever builds, and wherever a run is cut short, it holds just the migrations its version
   counts, each once and in order.
   */
  lemma {:induction false} AlwaysExact(history: seq<string>, os: seq<Opening>)
    requires Builds(history, os)
    ensures Exact(history, After(history, os))
  {
    if os != [] {
      var n := |os| - 1;
      AlwaysExact(history, os[..n]);
      var f := After(history, os[..n]);
      if f.version <= os[n].known {
        AdvanceIsExact(history, os[n].known, f, os[n].cut);
      }
    }
  }

  /** An opening that succeeds leaves what its build knows; one by an older build than the file's is refused; opening again changes nothing. */
  lemma OpensOrRefuses(history: seq<string>, f: File, known: nat, cut: Cut)
    requires Exact(history, f) && known <= |history|
    ensures var (g, r) := Migrate(f, history[..known], cut);
      && (r.Ok? ==> g == File(known, history[..known]) && forall again: Cut :: Migrate(g, history[..known], again) == (g, Ok(())))
      && (f.version > known <==> r == Err(Newer(f.version, known)))
      && (f.version > known ==> g == f)
  {
    if f.version <= known {
      AdvanceIsExact(history, known, f, cut);
    }
  }
}
