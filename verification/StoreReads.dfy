/** A read by key and the publication of a Set as their threads run them, section by section among all the others. */
module StoreReads {
  import opened Prelude
  import opened HotTables
  import opened MemLayer
  import opened GroupCommit
  import opened Engine
  import opened Coherence
  import opened ReadVersions

  function DoAll(u: Setup, s: State, actions: seq<Action>): State {
    if actions == [] then s else Do(u, DoAll(u, s, actions[..|actions| - 1]), actions[|actions| - 1])
  }

  lemma DoAllNext(u: Setup, s: State, actions: seq<Action>, a: Action)
    ensures DoAll(u, s, actions + [a]) == Do(u, DoAll(u, s, actions), a)
  {
    assert (actions + [a])[..|actions|] == actions;
  }

  lemma DoAllOne(u: Setup, s: State, a: Action)
    ensures DoAll(u, s, [a]) == Do(u, s, a)
  {
    assert [a][..0] == [];
  }

  lemma {:induction false} DoAllAppend(u: Setup, s: State, xs: seq<Action>, ys: seq<Action>)
    ensures DoAll(u, s, xs + ys) == DoAll(u, DoAll(u, s, xs), ys)
  {
    if ys == [] {
      assert xs + ys == xs;
    } else {
      var n := |ys| - 1;
      assert xs + ys == xs + ys[..n] + [ys[n]];
      DoAllAppend(u, s, xs, ys[..n]);
      DoAllNext(u, s, xs + ys[..n], ys[n]);
    }
  }

  /** What is done from a state some run reaches is part of a run: the laws of all runs hold of it. */
  lemma {:induction false} RunGoesOn(u: Setup, run: seq<Action>, more: seq<Action>)
    ensures DoAll(u, RunActions(u, run), more) == RunActions(u, run + more)
  {
    if more == [] {
      assert run + more == run;
    } else {
      var n := |more| - 1;
      assert run + more == run + more[..n] + [more[n]];
      RunGoesOn(u, run, more[..n]);
      assert (run + more)[..|run + more| - 1] == run + more[..n];
    }
  }

  // ---- the other threads

  /** Not a step of reader `id`, nor the end of the process. */
  predicate Foreign(a: Action, id: nat) {
    match a
    case ReaderStart(i, _) => i != id
    case ReaderRead(i, _) => i != id
    case ReaderCheck(i) => i != id
    case ReaderInsert(i, _, _) => i != id
    case Crash => false
    case _ => true
  }

  lemma ForeignStepKeepsReader(u: Setup, s: State, a: Action, id: nat)
    requires Foreign(a, id) && id in s.readers
    ensures id in Do(u, s, a).readers && Do(u, s, a).readers[id] == s.readers[id]
  {
  }

  lemma {:induction false} ForeignKeepsReader(u: Setup, s: State, actions: seq<Action>, id: nat)
    requires (forall a :: a in actions ==> Foreign(a, id)) && id in s.readers
    ensures var s' := DoAll(u, s, actions); id in s'.readers && s'.readers[id] == s.readers[id]
  {
    if actions != [] {
      var n := |actions| - 1;
      assert actions[n] in actions;
      ForeignKeepsReader(u, s, actions[..n], id);
      ForeignStepKeepsReader(u, DoAll(u, s, actions[..n]), actions[n], id);
    }
  }

  /** Readers, clients and the owner of the memory, while the writer is at one of its sections. */
  predicate BesideWriter(a: Action) {
    OffWriter(a) && !a.Crash?
  }

  lemma {:induction false} BesideWriterKeepsPhase(u: Setup, s: State, actions: seq<Action>)
    requires forall a :: a in actions ==> BesideWriter(a)
    ensures DoAll(u, s, actions).phase == s.phase
  {
    if actions != [] {
      var n := |actions| - 1;
      assert actions[n] in actions;
      BesideWriterKeepsPhase(u, s, actions[..n]);
      OffWriterFrame(u, DoAll(u, s, actions[..n]), actions[n]);
    }
  }

  /** The keys the byte budget dropped when a row went in. */
  function EvictedBy(cache: map<Key, MemRow>, k: Key, row: MemRow, left: map<Key, MemRow>): (evicted: set<Key>)
    requires Within(left, cache[k := row])
    ensures left == cache[k := row] - evicted
  {
    assert cache[k := row].Keys == cache.Keys + {k};
    (cache.Keys + {k}) - left.Keys
  }

  /** The publication of the same jobs, elsewhere. */
  function AtStage(p: Phase, next: nat, stage: Stage): Phase
    requires p.Publishing?
  {
    Publishing(p.jobs, p.replies, next, stage)
  }

  /** The process: the memory layer the threads share, and the state of everything, of which `mem` is the cache and the sequence. */
  class Server {
    const u: Setup
    const mem: Mem
    var world: State

    predicate Matches()
      reads this, mem
    {
      mem.kv == world.cache && mem.sequence == world.sequence
    }

    constructor (u: Setup)
      ensures Matches() && this.u == u && world == Init(u) && fresh(mem)
    {
      this.u, world := u, Init(u);
      mem := new Mem();
    }

    /** The other threads take some steps. */
    method Others(actions: seq<Action>)
      requires Matches()
      modifies this`world, mem
      ensures Matches() && world == DoAll(u, old(world), actions)
    {
      world := DoAll(u, world, actions);
      mem.kv, mem.sequence := world.cache, world.sequence;
    }

    // ---- the sections of a read

    /** The reader takes the sequence. */
    method TakeSequence(id: nat, k: Key) returns (seen: nat)
      requires Matches()
      modifies this`world
      ensures Matches() && world == Do(u, old(world), ReaderStart(id, k))
      ensures id in world.readers && world.readers[id] == Started(k, seen)
    {
      seen := mem.sequence;
      world := Do(u, world, ReaderStart(id, k));
    }

    /** The row as stored now, unless it has ended; the reader then holds it. */
    method ReadRow(id: nat, k: Key, now: U64, ghost seen: nat) returns (r: Option<KvRow>)
      requires Matches() && id in world.readers && world.readers[id] == Started(k, seen)
      modifies this`world
      ensures Matches() && world == Do(u, old(world), ReaderRead(id, AsI64(now)))
      ensures ReadStored(old(world).durable.kv, k, AsI64(now)) == (if r.Some? then Some(r.value.value) else None)
      ensures if r.Some? then id in world.readers && world.readers[id] == Holding(k, seen, r.value) else id !in world.readers
    {
      var kv := world.durable.kv;
      r := if k in kv && Active(kv[k], AsI64(now)) then Some(kv[k]) else None;
      world := Do(u, world, ReaderRead(id, AsI64(now)));
    }

    /** The first checks of a promotion. */
    method CheckSection(id: nat, seen: nat, k: Key, ghost row: KvRow) returns (go: bool)
      requires Matches() && id in world.readers && world.readers[id] == Holding(k, seen, row)
      modifies this`world
      ensures Matches() && world == Do(u, old(world), ReaderCheck(id))
      ensures if go then id in world.readers && world.readers[id] == Cleared(k, seen, row) else id !in world.readers
    {
      go := mem.PromoteCheck(seen, k);
      world := Do(u, world, ReaderCheck(id));
    }

    /** The insert of a promotion, both checks again under the lock. */
    method InsertSection(id: nat, seen: nat, k: Key, row: KvRow) returns (step: Action)
      requires Matches() && id in world.readers && world.readers[id] == Cleared(k, seen, row)
      modifies this`world, mem
      ensures Matches() && step.ReaderInsert? && step.id == id && world == Do(u, old(world), step)
      ensures id !in world.readers
    {
      var admitted := mem.Admit();
      var evicted: set<Key> := {};
      if admitted {
        mem.PromoteInsert(seen, k, Promoted(row));
        if world.sequence == seen && k !in world.cache {
          evicted := EvictedBy(world.cache, k, Promoted(row), mem.kv);
        }
      }
      step := ReaderInsert(id, admitted, evicted);
      world := Do(u, world, step);
    }

    /**
     A value read under the sequence `seen` is promoted, other threads acting `between` the first checks and the insert: the two
     sections are the reader's last two steps in the interleaving.
     */
    method Promote(id: nat, seen: nat, k: Key, row: KvRow, between: seq<Action>) returns (steps: seq<Action>)
      requires Matches()
      requires id in world.readers && world.readers[id] == Holding(k, seen, row)
      requires forall a :: a in between ==> Foreign(a, id)
      modifies this`world, mem
      ensures Matches() && world == DoAll(u, old(world), steps) && id !in world.readers
      ensures
        || steps == [ReaderCheck(id)]
        || (steps != [] && steps[..|steps| - 1] == [ReaderCheck(id)] + between && steps[|steps| - 1].ReaderInsert?)
    {
      hide Do, DoAll, Foreign;
      ghost var start := world;
      var go := CheckSection(id, seen, k, row);
      steps := [ReaderCheck(id)];
      DoAllOne(u, start, ReaderCheck(id));
      if go {
        ForeignKeepsReader(u, world, between, id);
        DoAllAppend(u, start, steps, between);
        Others(between);
        steps := steps + between;
        var step := InsertSection(id, seen, k, row);
        DoAllNext(u, start, steps, step);
        steps := steps + [step];
      }
    }

    /**
     A read by key: an active item of the memory, or else the row stored at the moment of the read, promoted on the way out. Step
     `at` is that moment; the others act before it, after it and during the promotion.
     */
    method Get(id: nat, k: Key, now: U64, before: seq<Action>, after: seq<Action>, between: seq<Action>)
      returns (r: Option<string>, steps: seq<Action>, at: nat)
      requires Matches()
      requires forall a :: a in before || a in after || a in between ==> Foreign(a, id)
      modifies this`world, mem
      ensures Matches() && world == DoAll(u, old(world), steps)
      ensures k in old(mem.kv) && MemActive(old(mem.kv)[k], now) ==> r == Some(old(mem.kv)[k].value) && steps == []
      ensures !(k in old(mem.kv) && MemActive(old(mem.kv)[k], now)) ==>
        && at < |steps| && steps[at] == ReaderRead(id, AsI64(now))
        && r == ReadStored(DoAll(u, old(world), steps[..at]).durable.kv, k, AsI64(now))
    {
      hide Do, DoAll, Foreign, ReadStored;
      at := 0;
      ghost var start := world;
      r, steps := Look(k, now);
      if r.Some? {
        return;
      }
      var seen := TakeSequence(id, k);
      DoAllNext(u, start, steps, ReaderStart(id, k));
      steps := steps + [ReaderStart(id, k)];

      ForeignKeepsReader(u, world, before, id);
      DoAllAppend(u, start, steps, before);
      Others(before);
      steps := steps + before;

      at := |steps|;
      var row := ReadRow(id, k, now, seen);
      DoAllNext(u, start, steps, ReaderRead(id, AsI64(now)));
      steps := steps + [ReaderRead(id, AsI64(now))];
      ghost var read := steps;
      if row.Some? {
        r := Some(row.value.value);
        ForeignKeepsReader(u, world, after, id);
        DoAllAppend(u, start, steps, after);
        Others(after);
        steps := steps + after;
        var last := Promote(id, seen, k, row.value, between);
        DoAllAppend(u, start, steps, last);
        steps := steps + last;
      }
      assert steps[..at] == read[..at];
    }

    /** The look into memory, which drops an expired item. */
    method Look(k: Key, now: U64) returns (r: Option<string>, steps: seq<Action>)
      requires Matches()
      modifies this`world, mem
      ensures Matches() && world == DoAll(u, old(world), steps)
      ensures r == if k in old(mem.kv) && MemActive(old(mem.kv)[k], now) then Some(old(mem.kv)[k].value) else None
      ensures r.Some? ==> steps == []
    {
      r := mem.Get(k, now);
      steps := [];
      if mem.kv != world.cache {
        DoAllOne(u, world, Evict({k}));
        world := Do(u, world, Evict({k}));
        steps := [Evict({k})];
      }
    }

    // ---- the sections of a publication

    predicate AtPublished(stage: Stage)
      reads this
    {
      && world.phase.Publishing? && world.phase.stage == stage
      && world.phase.next < |world.phase.jobs| && world.phase.next < |world.phase.replies|
      && Publishes(world.phase.jobs[world.phase.next].op, world.phase.replies[world.phase.next])
    }

    method BumpSection()
      requires Matches() && AtPublished(Untouched)
      modifies this`world, mem
      ensures Matches() && world == Do(u, old(world), PublishStep(false, {}))
      ensures world.phase == AtStage(old(world.phase), old(world.phase).next, Bumped)
    {
      mem.Bump();
      world := Do(u, world, PublishStep(false, {}));
    }

    method ForgetSection()
      requires Matches() && AtPublished(Bumped)
      modifies this`world, mem
      ensures Matches() && world == Do(u, old(world), PublishStep(false, {}))
      ensures world.phase == AtStage(old(world.phase), old(world.phase).next, Forgotten)
    {
      mem.Forget(SetKey(world.phase.jobs[world.phase.next].op));
      world := Do(u, world, PublishStep(false, {}));
    }

    method AdmitSection() returns (step: Action)
      requires Matches() && AtPublished(Forgotten)
      modifies this`world, mem
      ensures Matches() && step.PublishStep? && world == Do(u, old(world), step)
      ensures world.phase == AtStage(old(world.phase), old(world.phase).next + 1, Untouched)
    {
      var op := world.phase.jobs[world.phase.next].op;
      var admitted := mem.Admit();
      var evicted: set<Key> := {};
      if admitted {
        mem.Insert(SetKey(op), SetRow(op));
        evicted := EvictedBy(world.cache, SetKey(op), SetRow(op), mem.kv);
      }
      step := PublishStep(admitted, evicted);
      world := Do(u, world, step);
    }

    /** Making a committed Set active is the three publication steps of its job, other threads acting between the sections. */
    method Publish(afterBump: seq<Action>, afterForget: seq<Action>) returns (steps: seq<Action>)
      requires Matches() && AtPublished(Untouched)
      requires forall a :: a in afterBump || a in afterForget ==> BesideWriter(a)
      modifies this`world, mem
      ensures Matches() && world == DoAll(u, old(world), steps)
      ensures world.phase == AtStage(old(world.phase), old(world.phase).next + 1, Untouched)
      ensures steps != [] && steps[|steps| - 1].PublishStep?
      ensures steps[..|steps| - 1] == [PublishStep(false, {})] + afterBump + [PublishStep(false, {})] + afterForget
    {
      hide Do, DoAll, BesideWriter;
      ghost var start := world;
      var step := PublishStep(false, {});
      BumpSection();
      DoAllOne(u, start, step);
      steps := [step];

      BesideWriterKeepsPhase(u, world, afterBump);
      DoAllAppend(u, start, steps, afterBump);
      Others(afterBump);
      steps := steps + afterBump;

      ForgetSection();
      DoAllNext(u, start, steps, step);
      steps := steps + [step];

      BesideWriterKeepsPhase(u, world, afterForget);
      DoAllAppend(u, start, steps, afterForget);
      Others(afterForget);
      steps := steps + afterForget;

      var last := AdmitSection();
      DoAllNext(u, start, steps, last);
      steps := steps + [last];
    }
  }

  // ---- what a read answers once a write is acknowledged

  lemma StepKeepsHistory(u: Setup, s: State, a: Action)
    ensures |s.history| <= |Do(u, s, a).history| && Do(u, s, a).history[..|s.history|] == s.history
  {
  }

  lemma {:induction false} HistoryGrows(u: Setup, run: seq<Action>, more: seq<Action>)
    ensures var (h, h') := (RunActions(u, run).history, RunActions(u, run + more).history); |h| <= |h'| && h'[..|h|] == h
  {
    if more == [] {
      assert run + more == run;
    } else {
      var n := |more| - 1;
      HistoryGrows(u, run, more[..n]);
      assert run + more == run + more[..n] + [more[n]];
      RunNext(u, run + more[..n], more[n]);
      StepKeepsHistory(u, RunActions(u, run + more[..n]), more[n]);
      var (h, mid, h') := (RunActions(u, run).history, RunActions(u, run + more[..n]).history, RunActions(u, run + more).history);
      hide *;
      assert h'[..|h|] == h'[..|mid|][..|h|];
    }
  }

  /** The answer is that of the tables after the first `m` batches. */
  predicate OfVersion(u: Setup, h: seq<Entry>, k: Key, now: I64, m: int, r: Option<string>) {
    0 <= m <= |h| && r == ReadStored(After(u, h[..m]).kv, k, now)
  }

  /** The answer is that of the tables some batch from `i` on left by the end of `run`, or of a Set published at its start. */
  ghost predicate NotOlder(u: Setup, start: seq<Action>, run: seq<Action>, k: Key, now: I64, i: int, r: Option<string>)
    requires now >= 0
  {
    var s, h := RunActions(u, start), RunActions(u, run).history;
    || (exists m :: i < m && OfVersion(u, h, k, now, m, r))
    || (i < |s.history| - 1 && ReadsOwnSet(s, k, now) && r == ReadThrough(s, k, now))
  }

  lemma HitIsNotOlder(u: Setup, run: seq<Action>, k: Key, now: I64, i: int)
    requires FaithfulHistory(u, RunActions(u, run).history) && Acknowledged(u, RunActions(u, run), i) && now >= 0
    ensures NotOlder(u, run, run, k, now, i, ReadThrough(RunActions(u, run), k, now))
  {
    AcknowledgedIsNeverHidden(u, run, i, k, now);
    var s := RunActions(u, run);
    if m :| i < m && ReadsVersion(u, s, k, now, m) {
      assert OfVersion(u, s.history, k, now, m, ReadThrough(s, k, now));
    }
  }

  lemma AcknowledgedIsThere(u: Setup, s: State, i: int)
    requires Acknowledged(u, s, i)
    ensures 0 <= i < |s.history|
  {
  }

  lemma MissIsNotOlder(u: Setup, run: seq<Action>, steps: seq<Action>, at: nat, k: Key, now: I64, i: int)
    requires Acknowledged(u, RunActions(u, run), i) && now >= 0 && at <= |steps|
    ensures NotOlder(u, run, run + steps, k, now, i, ReadStored(DoAll(u, RunActions(u, run), steps[..at]).durable.kv, k, now))
  {
    hide *;
    var mid, h := RunActions(u, run + steps[..at]), RunActions(u, run + steps).history;
    RunGoesOn(u, run, steps[..at]);
    DurableAlways(u, run + steps[..at]);
    DurableTables(u, mid);
    HistoryGrows(u, run, steps[..at]);
    HistoryGrows(u, run + steps[..at], steps[at..]);
    assert run + steps[..at] + steps[at..] == run + steps;
    AcknowledgedIsThere(u, RunActions(u, run), i);
    VersionIsNotOlder(u, run, run + steps, k, now, i, |mid.history|, ReadStored(mid.durable.kv, k, now)) by {
      IsVersion(u, h, mid.history, k, now);
    }
  }

  lemma IsVersion(u: Setup, h: seq<Entry>, early: seq<Entry>, k: Key, now: I64)
    requires |early| <= |h| && h[..|early|] == early
    ensures OfVersion(u, h, k, now, |early|, ReadStored(After(u, early).kv, k, now))
  {
  }

  lemma VersionIsNotOlder(u: Setup, start: seq<Action>, run: seq<Action>, k: Key, now: I64, i: int, m: int, r: Option<string>)
    requires now >= 0 && i < m && OfVersion(u, RunActions(u, run).history, k, now, m, r)
    ensures NotOlder(u, start, run, k, now, i, r)
  {
    hide RunActions;
  }

  /**
   A read by key begun once a write of batch `i` was acknowledged, whatever the other threads do while it runs, answers the tables as a
   batch from `i` on left them, or a Set of a later batch being published: the value that batch `i` replaced is never seen again.
   */
  method GetAcknowledged(
    server: Server, id: nat, k: Key, now: U64, before: seq<Action>, after: seq<Action>, between: seq<Action>, ghost run: seq<Action>, ghost i: int)
    returns (r: Option<string>, steps: seq<Action>)
    requires server.Matches() && server.world == RunActions(server.u, run) && now < TWO_63
    requires forall a :: a in before || a in after || a in between ==> Foreign(a, id)
    requires FaithfulHistory(server.u, server.world.history) && Acknowledged(server.u, server.world, i)
    modifies server`world, server.mem
    ensures server.Matches() && server.world == RunActions(server.u, run + steps)
    ensures NotOlder(server.u, run, run + steps, k, now, i, r)
  {
    hide Do, DoAll, RunActions, FaithfulHistory, Acknowledged, NotOlder, ReadsOwnSet;
    ghost var start := server.world;
    var at;
    r, steps, at := server.Get(id, k, now, before, after, between);
    RunGoesOn(server.u, run, steps);
    if k in start.cache && MemActive(start.cache[k], now) {
      HitIsNotOlder(server.u, run, k, now, i);
      assert run + steps == run;
    } else {
      MissIsNotOlder(server.u, run, steps, at, k, now, i);
    }
  }
}
