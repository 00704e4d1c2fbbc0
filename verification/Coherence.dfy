/** Memory agrees with the database: once the answers go out, nothing older is read. */
module Coherence {
  import opened Prelude
  import opened HotTables
  import opened MemLayer
  import opened GroupCommit
  import opened Engine

  // In every interleaving of the writer, the readers, eviction and crashes, a cached item is the database's item unless a committed Set
  // of its key is still to be published. This holds for the runs in which the last Set each batch publishes for a key carries the row the
  // database then holds. Sets applied for the first time with an expiry below 2^63 are such; a Set answered from its write id, or one
  // whose expiry wraps, need not be.

  /** Job `i` publishes, and no later job of the batch publishes the same key. */
  predicate LastOnKey(ops: seq<Op>, replies: seq<Reply>, i: int)
    requires |ops| == |replies|
  {
    && 0 <= i < |ops|
    && Publishes(ops[i], replies[i])
    && forall j :: i < j < |ops| && Publishes(ops[j], replies[j]) ==> SetKey(ops[j]) != SetKey(ops[i])
  }

  /** What the batch publishes last for each key, from job `from` on, is what the database holds. */
  predicate Faithful(kv: map<Key, KvRow>, ops: seq<Op>, replies: seq<Reply>, from: int)
    requires |ops| == |replies|
  {
    forall i :: from <= i < |ops| && LastOnKey(ops, replies, i) ==> Agrees(kv, SetKey(ops[i]), SetRow(ops[i]))
  }

  /** Every committed batch of the history was faithful to the tables it produced. */
  predicate FaithfulHistory(u: Setup, history: seq<Entry>) {
    history == [] ||
    (var n := |history| - 1;
     && FaithfulHistory(u, history[..n])
     && (history[n].batch.failure.None? ==>
           Faithful(After(u, history).kv, Ops(history[n].batch.jobs), RunBatch(u.caps, After(u, history[..n]), history[n].batch).1, 0)))
  }

  /** A committed Set of `k` is still to be published, counting from job `from`. */
  predicate Owed(jobs: seq<Job>, replies: seq<Reply>, from: int, k: Key) {
    exists i :: 0 <= from <= i < |jobs| && i < |replies| && Publishes(jobs[i].op, replies[i]) && SetKey(jobs[i].op) == k
  }

  /** The value a committed Set of `k` replaces may still be cached. */
  predicate Unpublished(p: Phase, k: Key) {
    p.Publishing? && Owed(p.jobs, p.replies, p.next + (if p.stage.Forgotten? then 1 else 0), k)
  }

  /** The sequence is still to be bumped for a committed Set of `k`. */
  predicate Unbumped(p: Phase, k: Key) {
    p.Publishing? && Owed(p.jobs, p.replies, p.next + (if p.stage.Untouched? then 0 else 1), k)
  }

  predicate CacheAgrees(s: State) {
    forall k :: k in s.cache ==> Unpublished(s.phase, k) || Agrees(s.durable.kv, k, s.cache[k])
  }

  /** A row a reader holds under the current sequence is the database's, unless a newer one is about to bump the sequence. */
  predicate ReadersAgree(s: State) {
    forall id :: id in s.readers ==>
      var r := s.readers[id];
      && r.seen <= s.sequence
      && (!r.Started? && r.seen == s.sequence && !Unbumped(s.phase, r.key) ==>
            r.key in s.durable.kv && r.row == s.durable.kv[r.key])
  }

  predicate PublishesFaithfully(s: State) {
    s.phase.Publishing? ==>
      |s.phase.jobs| == |s.phase.replies| && s.phase.next <= |s.phase.jobs| &&
      Faithful(s.durable.kv, JobOps(s.phase.jobs), s.phase.replies, s.phase.next) &&
      (!s.phase.stage.Untouched? ==>
         s.phase.next < |s.phase.jobs| && Publishes(s.phase.jobs[s.phase.next].op, s.phase.replies[s.phase.next]))
  }

  predicate Coherent(s: State) {
    CacheAgrees(s) && ReadersAgree(s) && PublishesFaithfully(s)
  }

  /** A batch changes only the rows of the Sets it publishes. */
  lemma {:induction false} RunTouchesPublishedKeys(caps: Caps, t: Tables, jobs: seq<Attempt>, k: Key)
    requires forall i :: 0 <= i < |jobs| && Publishes(jobs[i].op, Run(caps, t, jobs).1[i]) ==> SetKey(jobs[i].op) != k
    ensures var kv := Run(caps, t, jobs).0.kv; (k in kv <==> k in t.kv) && (k in kv ==> kv[k] == t.kv[k])
  {
    if jobs != [] {
      var n := |jobs| - 1;
      var init := jobs[..n];
      assert forall i :: 0 <= i < n ==> init[i] == jobs[i] && Run(caps, t, init).1[i] == Run(caps, t, jobs).1[i];
      RunTouchesPublishedKeys(caps, t, init, k);
      KvStep(caps, Run(caps, t, init).0, jobs[n]);
      assert jobs[n].op == jobs[n].op && Publishes(jobs[n].op, Run(caps, t, jobs).1[n]) ==> SetKey(jobs[n].op) != k;
    }
  }

  lemma CommitKeepsCoherent(u: Setup, s: State)
    requires Durable(u, s) && Coherent(s) && s.phase.Applying?
    requires FaithfulHistory(u, Do(u, s, Commit).history)
    ensures Coherent(Do(u, s, Commit))
  {
    var jobs, done, work, replies := s.phase.jobs, s.phase.done, s.phase.work, s.phase.replies;
    if |done| == |jobs| {
      var s' := Do(u, s, Commit);
      var n := |s.history|;
      AfterAppend(u, s.history, s'.history[n]);
      assert s'.history[..n] == s.history;
      assert jobs[..|done|] == jobs && Ops(done) == JobOps(jobs);
      assert Faithful(s'.durable.kv, JobOps(jobs), replies, 0);
      forall k | !Unpublished(s'.phase, k)
        ensures (k in s'.durable.kv <==> k in s.durable.kv) && (k in s.durable.kv ==> s'.durable.kv[k] == s.durable.kv[k])
      {
        forall i | 0 <= i < |done| && Publishes(done[i].op, replies[i]) ensures SetKey(done[i].op) != k {
          assert Ops(done)[i] == JobOps(jobs)[i];
        }
        RunTouchesPublishedKeys(u.caps, s.durable, done, k);
      }
    }
  }

  /** While `k` is not owed after job `next`, the job at `next` is the last to publish its key. */
  lemma NextIsLast(s: State)
    requires PublishesFaithfully(s) && s.phase.Publishing? && s.phase.next < |s.phase.jobs|
    requires Publishes(s.phase.jobs[s.phase.next].op, s.phase.replies[s.phase.next])
    requires !Owed(s.phase.jobs, s.phase.replies, s.phase.next + 1, SetKey(s.phase.jobs[s.phase.next].op))
    ensures Agrees(s.durable.kv, SetKey(s.phase.jobs[s.phase.next].op), SetRow(s.phase.jobs[s.phase.next].op))
  {
    assert LastOnKey(JobOps(s.phase.jobs), s.phase.replies, s.phase.next);
  }

  lemma OwedSplits(jobs: seq<Job>, replies: seq<Reply>, from: nat, k: Key)
    ensures Owed(jobs, replies, from, k) <==>
      || (from < |jobs| && from < |replies| && Publishes(jobs[from].op, replies[from]) && SetKey(jobs[from].op) == k)
      || Owed(jobs, replies, from + 1, k)
  {
  }

  /** The job at `next` is done with, publishing nothing more: what is owed after it is what was owed. */
  lemma AdvanceKeepsCoherent(s: State, s': State)
    requires Coherent(s) && s.phase.Publishing? && s.phase.next < |s.phase.jobs|
    requires s' == s.(phase := s.phase.(next := s.phase.next + 1, stage := Untouched), cache := s'.cache)
    requires Publishes(s.phase.jobs[s.phase.next].op, s.phase.replies[s.phase.next]) ==> s.phase.stage.Forgotten?
    requires forall k :: k in s'.cache ==>
      || (k in s.cache && s'.cache[k] == s.cache[k])
      || Owed(s.phase.jobs, s.phase.replies, s.phase.next + 1, k)
      || Agrees(s.durable.kv, k, s'.cache[k])
    ensures Coherent(s')
  {
    var p := s.phase;
    forall k ensures Owed(p.jobs, p.replies, p.next, k) <==>
      || (Publishes(p.jobs[p.next].op, p.replies[p.next]) && SetKey(p.jobs[p.next].op) == k)
      || Owed(p.jobs, p.replies, p.next + 1, k)
    {
      OwedSplits(p.jobs, p.replies, p.next, k);
    }
  }

  /** The new value goes in over whatever a reader promoted meanwhile, or is refused. */
  lemma InsertKeepsCoherent(s: State, admitted: bool, evicted: set<Key>)
    requires Coherent(s) && s.phase.Publishing? && s.phase.stage.Forgotten?
    ensures var op := s.phase.jobs[s.phase.next].op;
      Coherent(s.(cache := if admitted then s.cache[SetKey(op) := SetRow(op)] - evicted else s.cache,
                  phase := s.phase.(next := s.phase.next + 1, stage := Untouched)))
  {
    var op := s.phase.jobs[s.phase.next].op;
    if !Owed(s.phase.jobs, s.phase.replies, s.phase.next + 1, SetKey(op)) {
      NextIsLast(s);
    }
    var cache' := if admitted then s.cache[SetKey(op) := SetRow(op)] - evicted else s.cache;
    AdvanceKeepsCoherent(s, s.(cache := cache', phase := s.phase.(next := s.phase.next + 1, stage := Untouched)));
  }

  lemma BumpKeepsCoherent(s: State)
    requires Coherent(s) && s.phase.Publishing? && s.phase.stage.Untouched? && s.phase.next < |s.phase.jobs|
    requires Publishes(s.phase.jobs[s.phase.next].op, s.phase.replies[s.phase.next])
    ensures Coherent(s.(sequence := s.sequence + 1, phase := s.phase.(stage := Bumped)))
  {
  }

  lemma ForgetKeepsCoherent(s: State)
    requires Coherent(s) && s.phase.Publishing? && s.phase.stage.Bumped?
    ensures Coherent(s.(cache := s.cache - {SetKey(s.phase.jobs[s.phase.next].op)}, phase := s.phase.(stage := Forgotten)))
  {
    var p := s.phase;
    forall k ensures Owed(p.jobs, p.replies, p.next, k) <==>
      SetKey(p.jobs[p.next].op) == k || Owed(p.jobs, p.replies, p.next + 1, k)
    {
      OwedSplits(p.jobs, p.replies, p.next, k);
    }
  }

  lemma PublishKeepsCoherent(u: Setup, s: State, admitted: bool, evicted: set<Key>)
    requires Coherent(s) && s.phase.Publishing?
    ensures Coherent(WriterStep(u, s, PublishStep(admitted, evicted)))
  {
    var p := s.phase;
    if p.next < |p.jobs| {
      if !Publishes(p.jobs[p.next].op, p.replies[p.next]) {
        AdvanceKeepsCoherent(s, s.(phase := Publishing(p.jobs, p.replies, p.next + 1, Untouched)));
      } else {
        match p.stage
        case Untouched => BumpKeepsCoherent(s);
        case Bumped => ForgetKeepsCoherent(s);
        case Forgotten => InsertKeepsCoherent(s, admitted, evicted);
      }
    }
  }

  lemma ReaderKeepsCoherent(s: State, a: Action)
    requires Coherent(s)
    requires a.ReaderStart? || a.ReaderRead? || a.ReaderCheck? || a.ReaderInsert?
    ensures Coherent(ReaderStep(s, a))
  {
  }

  lemma QuietPhaseKeepsCoherent(u: Setup, s: State, a: Action)
    requires Coherent(s)
    requires !s.phase.Publishing? && Possible(s, a) && !a.Commit?
    ensures Coherent(Do(u, s, a)) || a.Abort?
  {
  }

  lemma AbortKeepsCoherent(u: Setup, s: State, e: DbError)
    requires Durable(u, s) && Coherent(s) && s.phase.Applying?
    ensures Coherent(Do(u, s, Abort(e)))
  {
  }

  lemma StepKeepsCoherent(u: Setup, s: State, a: Action)
    requires Durable(u, s) && Coherent(s)
    requires FaithfulHistory(u, Do(u, s, a).history)
    ensures Coherent(Do(u, s, a))
  {
    if a.Submit? || a.Evict? || a.Crash? {
    } else if OffWriter(a) {
      ReaderKeepsCoherent(s, a);
    } else if !Possible(s, a) {
      ImpossibleChangesNothing(u, s, a);
    } else if s.phase.Publishing? {
      PublishKeepsCoherent(u, s, a.admitted, a.evicted);
    } else if a.Commit? {
      CommitKeepsCoherent(u, s);
    } else if a.Abort? {
      AbortKeepsCoherent(u, s, a.error);
    } else {
      QuietPhaseKeepsCoherent(u, s, a);
    }
  }

  /** The history grows by at most one batch a step, so a faithful one was faithful before. */
  lemma FaithfulBefore(u: Setup, s: State, a: Action)
    requires FaithfulHistory(u, Do(u, s, a).history)
    ensures FaithfulHistory(u, s.history)
  {
    var h := Do(u, s, a).history;
    assert h == s.history || (|h| == |s.history| + 1 && h[..|s.history|] == s.history);
  }

  /** Every run in which each committed batch was faithful is coherent at every moment. */
  lemma {:induction false} CoherentAlways(u: Setup, actions: seq<Action>)
    requires FaithfulHistory(u, RunActions(u, actions).history)
    ensures Coherent(RunActions(u, actions))
  {
    if actions != [] {
      var before := actions[..|actions| - 1];
      var s := RunActions(u, before);
      FaithfulBefore(u, s, actions[|actions| - 1]);
      CoherentAlways(u, before);
      DurableAlways(u, before);
      StepKeepsCoherent(u, s, actions[|actions| - 1]);
    }
  }

  /** What a read answers: the active cached value, or else the active stored one; `None` for neither. */
  function ReadStored(kv: map<Key, KvRow>, k: Key, now: I64): Option<string> {
    if k in kv && Active(kv[k], now) then Some(kv[k].value) else None
  }

  function ReadThrough(s: State, k: Key, now: I64): Option<string>
    requires now >= 0
  {
    if k in s.cache && MemActive(s.cache[k], now) then Some(s.cache[k].value) else ReadStored(s.durable.kv, k, now)
  }

  /**
   While answers are being sent, and whenever the writer is not between a commit and its last publication, a read through memory is
   a read of the database: no acknowledged Set is hidden by an older cached value.
   */
  lemma AcknowledgedSetsAreRead(u: Setup, actions: seq<Action>, k: Key, now: I64)
    requires FaithfulHistory(u, RunActions(u, actions).history)
    requires now >= 0
    requires !Unpublished(RunActions(u, actions).phase, k)
    ensures ReadThrough(RunActions(u, actions), k, now) == ReadStored(RunActions(u, actions).durable.kv, k, now)
  {
    CoherentAlways(u, actions);
  }

  // ---- exactly which batches are faithful

  predicate ExpiryFits(op: Op)
    requires IsSet(op)
  {
    op.verb.expires.Some? ==> op.verb.expires.value < TWO_63
  }

  /** The row an applied Set stored survives the rest of its batch when it is the last on its key. */
  lemma LastWriteStays(caps: Caps, t: Tables, jobs: seq<Attempt>, i: int)
    requires LastOnKey(Ops(jobs), Run(caps, t, jobs).1, i)
    requires Applied(Run(caps, t, jobs[..i]).0, jobs[i], Run(caps, t, jobs).1[i])
    ensures var op := jobs[i].op; var kv := Run(caps, t, jobs).0.kv;
      SetKey(op) in kv && kv[SetKey(op)] == StoredRow(op.verb.value, op.verb.expires)
  {
    var head, tail := jobs[..i + 1], jobs[i + 1..];
    assert jobs == head + tail && head[..i] == jobs[..i];
    RunAppend(caps, t, head, tail);
    var mid := Run(caps, t, head);
    assert mid.1[i] == Run(caps, t, jobs).1[i];
    KvStep(caps, Run(caps, t, jobs[..i]).0, jobs[i]);
    var after := Run(caps, mid.0, tail).1;
    forall j | 0 <= j < |tail| && Publishes(tail[j].op, after[j]) ensures SetKey(tail[j].op) != SetKey(jobs[i].op) {
      assert Ops(jobs)[i + 1 + j] == tail[j].op && Run(caps, t, jobs).1[i + 1 + j] == after[j];
      assert Ops(jobs)[i] == jobs[i].op;
    }
    RunTouchesPublishedKeys(caps, mid.0, tail, SetKey(jobs[i].op));
  }

  /** Job `i` published a row that memory and the database read alike: applied now with a fitting expiry, or replayed unchanged. */
  predicate PublishesSoundly(caps: Caps, t: Tables, jobs: seq<Attempt>, i: int)
    requires 0 <= i < |jobs| && Publishes(jobs[i].op, Run(caps, t, jobs).1[i])
  {
    if Replay(Run(caps, t, jobs[..i]).0, jobs[i].op)
    then Agrees(Run(caps, t, jobs).0.kv, SetKey(jobs[i].op), SetRow(jobs[i].op))
    else ExpiryFits(jobs[i].op)
  }

  /** A batch is faithful exactly when the last Set of each key was applied with an expiry below 2^63 or replayed a row still stored. */
  lemma FaithfulExactly(caps: Caps, t: Tables, jobs: seq<Attempt>)
    ensures var (t', replies) := Run(caps, t, jobs);
      Faithful(t'.kv, Ops(jobs), replies, 0) <==>
        forall i :: 0 <= i < |jobs| && LastOnKey(Ops(jobs), replies, i) ==> PublishesSoundly(caps, t, jobs, i)
  {
    var (t', replies) := Run(caps, t, jobs);
    forall i | 0 <= i < |jobs| && LastOnKey(Ops(jobs), replies, i)
      ensures Agrees(t'.kv, SetKey(jobs[i].op), SetRow(jobs[i].op)) <==> PublishesSoundly(caps, t, jobs, i)
    {
      if !Replay(Run(caps, t, jobs[..i]).0, jobs[i].op) {
        LastWriteStays(caps, t, jobs, i);
      }
    }
    assert forall i :: 0 <= i < |jobs| ==> Ops(jobs)[i] == jobs[i].op;
  }

  /** Every Set the jobs publish is applied for the first time, with an expiry that fits. */
  predicate FirstTime(caps: Caps, t: Tables, jobs: seq<Attempt>) {
    forall i :: 0 <= i < |jobs| && Publishes(jobs[i].op, Run(caps, t, jobs).1[i]) ==>
      !Replay(Run(caps, t, jobs[..i]).0, jobs[i].op) && ExpiryFits(jobs[i].op)
  }

  lemma FirstTimeIsFaithful(caps: Caps, t: Tables, jobs: seq<Attempt>)
    requires FirstTime(caps, t, jobs)
    ensures Faithful(Run(caps, t, jobs).0.kv, Ops(jobs), Run(caps, t, jobs).1, 0)
  {
    FaithfulExactly(caps, t, jobs);
    assert forall i :: 0 <= i < |jobs| ==> Ops(jobs)[i] == jobs[i].op;
  }

  /** The same of every committed batch. */
  predicate FirstTimeSets(u: Setup, history: seq<Entry>) {
    history == [] ||
    (var n := |history| - 1;
     && FirstTimeSets(u, history[..n])
     && (history[n].batch.failure.None? ==> FirstTime(u.caps, After(u, history[..n]), history[n].batch.jobs)))
  }

  lemma {:induction false} FirstTimeSetsAreFaithful(u: Setup, history: seq<Entry>)
    requires FirstTimeSets(u, history)
    ensures FaithfulHistory(u, history)
  {
    if history != [] {
      var n := |history| - 1;
      FirstTimeSetsAreFaithful(u, history[..n]);
      assert history[..n] + [history[n]] == history;
      AfterAppend(u, history[..n], history[n]);
      if history[n].batch.failure.None? {
        FirstTimeIsFaithful(u.caps, After(u, history[..n]), history[n].batch.jobs);
      }
    }
  }

  /** The hypothesis in a client's terms: no Set answered from its write id, no expiry of 2^63 or more. */
  lemma FirstTimeSetsAreRead(u: Setup, actions: seq<Action>, k: Key, now: I64)
    requires FirstTimeSets(u, RunActions(u, actions).history)
    requires now >= 0
    requires !Unpublished(RunActions(u, actions).phase, k)
    ensures ReadThrough(RunActions(u, actions), k, now) == ReadStored(RunActions(u, actions).durable.kv, k, now)
  {
    FirstTimeSetsAreFaithful(u, RunActions(u, actions).history);
    AcknowledgedSetsAreRead(u, actions, k, now);
  }

  predicate CacheHoldsStored(cache: map<Key, MemRow>, kv: map<Key, KvRow>) {
    forall k :: k in cache ==> Agrees(kv, k, cache[k])
  }

  lemma {:induction false} PublishAllAt(cache: map<Key, MemRow>, ops: seq<Op>, replies: seq<Reply>, k: Key)
    requires |ops| == |replies|
    ensures var c := PublishAll(cache, ops, replies);
      || (exists i :: LastOnKey(ops, replies, i) && SetKey(ops[i]) == k && k in c && c[k] == SetRow(ops[i]))
      || ((forall i :: 0 <= i < |ops| && Publishes(ops[i], replies[i]) ==> SetKey(ops[i]) != k)
          && (k in c <==> k in cache) && (k in c ==> c[k] == cache[k]))
  {
    if ops != [] {
      var n := |ops| - 1;
      PublishAllAt(cache, ops[..n], replies[..n], k);
      if Publishes(ops[n], replies[n]) && SetKey(ops[n]) == k {
        assert LastOnKey(ops, replies, n);
      } else if i :| LastOnKey(ops[..n], replies[..n], i) && SetKey(ops[..n][i]) == k
                     && k in PublishAll(cache, ops[..n], replies[..n])
                     && PublishAll(cache, ops[..n], replies[..n])[k] == SetRow(ops[..n][i]) {
        assert ops[..n][i] == ops[i];
        assert LastOnKey(ops, replies, i);
      }
    }
  }

  lemma {:induction false} LastOnKeyExists(ops: seq<Op>, replies: seq<Reply>, i: int) returns (last: int)
    requires |ops| == |replies| && 0 <= i < |ops| && Publishes(ops[i], replies[i])
    ensures LastOnKey(ops, replies, last) && SetKey(ops[last]) == SetKey(ops[i])
    decreases |ops| - i
  {
    if j :| i < j < |ops| && Publishes(ops[j], replies[j]) && SetKey(ops[j]) == SetKey(ops[i]) {
      last := LastOnKeyExists(ops, replies, j);
    } else {
      last := i;
    }
  }

  /**
   From a cache that agrees with the database, committing a batch and publishing all of it leaves a cache that agrees with the
   database if and only if the batch is faithful: the hypothesis of the theorem above cannot be weakened.
   */
  lemma PublishingAgreesExactly(caps: Caps, t: Tables, jobs: seq<Attempt>, cache: map<Key, MemRow>)
    requires CacheHoldsStored(cache, t.kv)
    ensures var (t', replies) := Run(caps, t, jobs);
      CacheHoldsStored(PublishAll(cache, Ops(jobs), replies), t'.kv) <==> Faithful(t'.kv, Ops(jobs), replies, 0)
  {
    var (t', replies) := Run(caps, t, jobs);
    var ops := Ops(jobs);
    var c := PublishAll(cache, ops, replies);
    if Faithful(t'.kv, ops, replies, 0) {
      forall k | k in c ensures Agrees(t'.kv, k, c[k]) {
        PublishAllAt(cache, ops, replies, k);
        if forall i :: 0 <= i < |ops| && Publishes(ops[i], replies[i]) ==> SetKey(ops[i]) != k {
          assert forall i :: 0 <= i < |jobs| ==> ops[i] == jobs[i].op;
          RunTouchesPublishedKeys(caps, t, jobs, k);
        }
      }
    }
    if CacheHoldsStored(c, t'.kv) {
      forall i | 0 <= i < |ops| && LastOnKey(ops, replies, i) ensures Agrees(t'.kv, SetKey(ops[i]), SetRow(ops[i])) {
        PublishAllAt(cache, ops, replies, SetKey(ops[i]));
      }
    }
  }

  // ---- two runs that are not coherent

  const SOME_CAPS: Caps := Caps(10, 10, 10)

  function SetJob(writeId: string, value: string, expires: Option<U64>): Attempt {
    Attempt(Proj("p", writeId, Set("k", value, expires)), 0, None)
  }

  /** Set v1 under an id, Set v2, then the first Set again: the database keeps v2, memory goes back to v1. */
  lemma ReplayedSetHidesNewerValue()
    ensures
      var first, second, again := SetJob("w", "v1", None), SetJob("", "v2", None), SetJob("w", "v1", None);
      var r1 := Run(SOME_CAPS, EMPTY, [first]);
      var r2 := Run(SOME_CAPS, r1.0, [second]);
      var r3 := Run(SOME_CAPS, r2.0, [again]);
      var cache := PublishAll(PublishAll(PublishAll(map[], [first.op], r1.1), [second.op], r2.1), [again.op], r3.1);
      && r3.1 == [Ok("ok")]
      && ("p", "k") in r3.0.kv && r3.0.kv[("p", "k")].value == "v2"
      && ("p", "k") in cache && cache[("p", "k")].value == "v1"
  {
    var first, second, again := SetJob("w", "v1", None), SetJob("", "v2", None), SetJob("w", "v1", None);
    var t1, t2 := AfterFirst(), AfterSecond();
    FirstTwoSets();
    assert Step(SOME_CAPS, t2, again) == (t2, Ok("ok"));
    RunOne(SOME_CAPS, EMPTY, first);
    RunOne(SOME_CAPS, t1, second);
    RunOne(SOME_CAPS, t2, again);
    PublishOne(map[], first.op, Ok("ok"));
    var c1 := map[("p", "k") := SetRow(first.op)];
    PublishOne(c1, second.op, Ok("ok"));
    PublishOne(c1[("p", "k") := SetRow(second.op)], again.op, Ok("ok"));
  }

  function AfterFirst(): Tables {
    EMPTY.(kv := map[("p", "k") := StoredRow("v1", None)], applied := map["w" := "ok"])
  }

  function AfterSecond(): Tables {
    AfterFirst().(kv := map[("p", "k") := StoredRow("v2", None)])
  }

  lemma FirstTwoSets()
    ensures Step(SOME_CAPS, EMPTY, SetJob("w", "v1", None)) == (AfterFirst(), Ok("ok"))
    ensures Step(SOME_CAPS, AfterFirst(), SetJob("", "v2", None)) == (AfterSecond(), Ok("ok"))
  {
    assert Projects(EMPTY) == {} && ActiveKeys(EMPTY, "p", 0) == {};
    assert ("p", "k") in ActiveKeys(AfterFirst(), "p", 0) && ("p", "k").0 in Projects(AfterFirst());
    assert AfterFirst().kv[("p", "k") := StoredRow("v2", None)] == AfterSecond().kv;
  }

  lemma RunOne(caps: Caps, t: Tables, a: Attempt)
    ensures Run(caps, t, [a]) == (Step(caps, t, a).0, [Step(caps, t, a).1])
    ensures Ops([a]) == [a.op]
  {
    var jobs := [a];
    var before := Run(caps, t, jobs[..|jobs| - 1]);
    assert before == (t, []);
    var (t', r) := Step(caps, before.0, jobs[|jobs| - 1]);
    assert Run(caps, t, jobs) == (t', before.1 + [r]) && before.1 + [r] == [r];
  }

  lemma PublishOne(cache: map<Key, MemRow>, op: Op, r: Reply)
    requires Publishes(op, r)
    ensures PublishAll(cache, [op], [r]) == cache[SetKey(op) := SetRow(op)]
  {
    assert [op][..0] == [] && [r][..0] == [];
    assert PublishAll(cache, [], []) == cache;
  }

  /** An expiry of 2^64 - 1 is kept as it is in memory and wraps to -1 in the database, which then reads the key as expired. */
  lemma HugeExpiryIsReadDifferently(now: I64)
    requires now >= 0
    ensures
      var job := SetJob("", "v", Some(TWO_64 - 1));
      var (t, replies) := Run(SOME_CAPS, EMPTY, [job]);
      var cache := PublishAll(map[], Ops([job]), replies);
      && ReadStored(t.kv, ("p", "k"), now) == None
      && ("p", "k") in cache && MemActive(cache[("p", "k")], now)
  {
    var job := SetJob("", "v", Some(TWO_64 - 1));
    assert Projects(EMPTY) == {} && ActiveKeys(EMPTY, "p", 0) == {};
    RunOne(SOME_CAPS, EMPTY, job);
    PublishOne(map[], job.op, Ok("ok"));
  }
}
