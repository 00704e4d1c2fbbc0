/** Which version of a key a read may answer while a committed batch is still being published. */
module ReadVersions {
  import opened Prelude
  import opened HotTables
  import opened MemLayer
  import opened GroupCommit
  import opened Engine
  import opened Coherence

  // Between its commit and its last publication a batch's old and new rows are both about: the cache may hold either, or the row of any
  // Set the batch published on the way. It never holds anything older.

  /** The tables before the batch finished last. */
  function Before(u: Setup, s: State): Tables
    requires s.history != []
  {
    After(u, s.history[..|s.history| - 1])
  }

  /** The row is that of a Set the batch being published makes active. */
  predicate OwnSet(p: Phase, k: Key, row: MemRow) {
    && p.Publishing?
    && exists i :: 0 <= i < |p.jobs| && i < |p.replies| && Publishes(p.jobs[i].op, p.replies[i])
                   && SetKey(p.jobs[i].op) == k && SetRow(p.jobs[i].op) == row
  }

  predicate Recent(u: Setup, s: State, k: Key, row: MemRow)
    requires s.history != []
  {
    Agrees(s.durable.kv, k, row) || Agrees(Before(u, s).kv, k, row) || OwnSet(s.phase, k, row)
  }

  predicate CacheRecent(u: Setup, s: State)
    requires s.history != []
  {
    forall k :: k in s.cache ==> Recent(u, s, k, s.cache[k])
  }

  predicate StoredOf(kv: map<Key, KvRow>, r: Reader)
    requires !r.Started?
  {
    r.key in kv && r.row == kv[r.key]
  }

  predicate ReadersRecent(u: Setup, s: State)
    requires s.history != []
  {
    forall id :: id in s.readers && !s.readers[id].Started? && s.readers[id].seen == s.sequence ==>
      StoredOf(s.durable.kv, s.readers[id]) || StoredOf(Before(u, s).kv, s.readers[id])
  }

  predicate WindowRecent(u: Setup, s: State) {
    s.phase.Publishing? ==> s.history != [] && CacheRecent(u, s) && ReadersRecent(u, s)
  }

  lemma FinishIsRecent(u: Setup, s: State, a: Action)
    requires Durable(u, s) && Coherent(s) && s.phase.Applying? && (a.Commit? || a.Abort?)
    ensures WindowRecent(u, Do(u, s, a))
  {
    var s' := Do(u, s, a);
    if s'.phase.Publishing? {
      assert s'.history[..|s.history|] == s.history;
      assert Before(u, s') == s.durable;
    }
  }

  lemma PublishKeepsRecent(u: Setup, s: State, a: Action)
    requires Coherent(s) && WindowRecent(u, s) && s.phase.Publishing? && a.PublishStep?
    ensures WindowRecent(u, Do(u, s, a))
  {
    var s' := Do(u, s, a);
    PublishFrame(u, s, a.admitted, a.evicted);
    if s'.phase.Publishing? {
      PublishReaders(u, s, a);
      forall k | k in s'.cache ensures Recent(u, s', k, s'.cache[k]) {
        PublishedRow(u, s, a, k);
        if k in s.cache && s'.cache[k] == s.cache[k] {
          assert Recent(u, s, k, s.cache[k]);
          assert OwnSet(s.phase, k, s.cache[k]) <==> OwnSet(s'.phase, k, s.cache[k]);
        }
      }
    }
  }

  /** A publication step leaves a cached row as it was or puts in that of its Set. */
  lemma PublishedRow(u: Setup, s: State, a: Action, k: Key)
    requires s.phase.Publishing? && a.PublishStep? && k in Do(u, s, a).cache
    ensures var s' := Do(u, s, a); (k in s.cache && s'.cache[k] == s.cache[k]) || OwnSet(s.phase, k, s'.cache[k])
  {
  }

  lemma PublishReaders(u: Setup, s: State, a: Action)
    requires s.phase.Publishing? && a.PublishStep?
    ensures Do(u, s, a).readers == s.readers && Do(u, s, a).sequence >= s.sequence
  {
  }

  lemma OffWriterKeepsRecent(u: Setup, s: State, a: Action)
    requires WindowRecent(u, s) && OffWriter(a)
    ensures WindowRecent(u, Do(u, s, a))
  {
    OffWriterFrame(u, s, a);
  }

  lemma {:induction false} RecentAlways(u: Setup, actions: seq<Action>)
    requires FaithfulHistory(u, RunActions(u, actions).history)
    ensures WindowRecent(u, RunActions(u, actions))
  {
    if actions != [] {
      var before, a := actions[..|actions| - 1], actions[|actions| - 1];
      var s := RunActions(u, before);
      FaithfulBefore(u, s, a);
      RecentAlways(u, before);
      CoherentAlways(u, before);
      DurableAlways(u, before);
      if OffWriter(a) {
        OffWriterKeepsRecent(u, s, a);
      } else if !Possible(s, a) {
        ImpossibleChangesNothing(u, s, a);
      } else if s.phase.Publishing? {
        PublishKeepsRecent(u, s, a);
      } else if a.Commit? || a.Abort? {
        FinishIsRecent(u, s, a);
      } else {
        NotFinishingNotPublishing(u, s, a);
      }
    }
  }

  lemma NotFinishingNotPublishing(u: Setup, s: State, a: Action)
    requires !OffWriter(a) && Possible(s, a) && !s.phase.Publishing? && !a.Commit? && !a.Abort?
    ensures !Do(u, s, a).phase.Publishing?
  {
  }

  // ---- what a client who was answered reads

  /** A read at `now` answers the tables left by the first `m` batches. */
  predicate ReadsVersion(u: Setup, s: State, k: Key, now: I64, m: int)
    requires now >= 0
  {
    0 <= m <= |s.history| && ReadThrough(s, k, now) == ReadStored(After(u, s.history[..m]).kv, k, now)
  }

  /** A read answers a Set of the batch being published. */
  predicate ReadsOwnSet(s: State, k: Key, now: I64)
    requires now >= 0
  {
    && s.phase.Publishing?
    && exists i :: 0 <= i < |s.phase.jobs| && i < |s.phase.replies| && Publishes(s.phase.jobs[i].op, s.phase.replies[i])
                   && SetKey(s.phase.jobs[i].op) == k && ReadThrough(s, k, now) == Some(s.phase.jobs[i].op.verb.value)
  }

  lemma DurableTables(u: Setup, s: State)
    requires Durable(u, s)
    ensures s.durable == After(u, s.history)
  {
  }

  lemma CachedIsReadAlike(kv: map<Key, KvRow>, k: Key, row: MemRow, now: I64)
    requires Agrees(kv, k, row) && now >= 0 && MemActive(row, now)
    ensures ReadStored(kv, k, now) == Some(row.value)
  {
  }

  /** At every moment a read answers the tables as stored, or in the window those before the batch or one of the batch's own Sets. */
  lemma ReadsAreRecent(u: Setup, actions: seq<Action>, k: Key, now: I64)
    requires FaithfulHistory(u, RunActions(u, actions).history)
    requires now >= 0
    ensures var s := RunActions(u, actions);
      var n := |s.history|;
      || ReadsVersion(u, s, k, now, n)
      || (s.phase.Publishing? && Unpublished(s.phase, k) && (ReadsVersion(u, s, k, now, n - 1) || ReadsOwnSet(s, k, now)))
  {
    var s := RunActions(u, actions);
    RecentAlways(u, actions);
    CoherentAlways(u, actions);
    DurableAlways(u, actions);
    hide RunActions, FaithfulHistory, After, Agrees, MemActive, Durable, ReadersAgree, ReadersRecent, ReadStored;
    assert s.durable == After(u, s.history) by { assert Durable(u, s); DurableTables(u, s); }
    assert s.history[..|s.history|] == s.history;
    if k in s.cache && MemActive(s.cache[k], now) {
      var row := s.cache[k];
      if Agrees(s.durable.kv, k, row) {
        CachedIsReadAlike(s.durable.kv, k, row, now);
      } else if Agrees(Before(u, s).kv, k, row) {
        CachedIsReadAlike(Before(u, s).kv, k, row, now);
      }
    }
  }

  /** The job of an acknowledged write is in batch `i`. */
  ghost predicate Acknowledged(u: Setup, s: State, i: int) {
    exists a :: a in s.acks && a.reply.Ok? && AnsweredBy(u, s.history, i, a.id, a.reply)
  }

  lemma EarlierAnswered(u: Setup, actions: seq<Action>, a: Ack)
    requires a in RunActions(u, actions).acks && RunActions(u, actions).phase.Publishing?
    ensures var h := RunActions(u, actions).history; h != [] && a.id in Finished(h[..|h| - 1])
  {
    var s := RunActions(u, actions);
    AnswersComeInOrder(u, actions);
    var c :| 0 <= c < |s.acks| && s.acks[c] == a;
    assert AckIds(s.acks)[c] == a.id;
  }

  lemma AcknowledgedIsEarlier(u: Setup, actions: seq<Action>, i: int)
    requires Acknowledged(u, RunActions(u, actions), i)
    requires RunActions(u, actions).phase.Publishing?
    ensures i < |RunActions(u, actions).history| - 1
  {
    var s := RunActions(u, actions);
    var a :| a in s.acks && a.reply.Ok? && AnsweredBy(u, s.history, i, a.id, a.reply);
    var n := |s.history| - 1;
    if i == n {
      EarlierAnswered(u, actions, a);
      FinishedAscends(u, actions);
      AscendsAcross(Finished(s.history[..n]), s.history[n].ids, s.nextId, a.id, a.id);
    }
  }

  /**
   Once a write of batch `i` has been acknowledged, every later read answers the tables as some batch from `i` on left them, or a Set of a
   later batch now being published: never what batch `i` replaced.
   */
  lemma AcknowledgedIsNeverHidden(u: Setup, actions: seq<Action>, i: int, k: Key, now: I64)
    requires FaithfulHistory(u, RunActions(u, actions).history)
    requires Acknowledged(u, RunActions(u, actions), i)
    requires now >= 0
    ensures var s := RunActions(u, actions);
      (exists m :: i < m && ReadsVersion(u, s, k, now, m)) || (i < |s.history| - 1 && ReadsOwnSet(s, k, now))
  {
    var s := RunActions(u, actions);
    ReadsAreRecent(u, actions, k, now);
    if s.phase.Publishing? {
      AcknowledgedIsEarlier(u, actions, i);
    }
    var m := if ReadsVersion(u, s, k, now, |s.history|) then |s.history| else |s.history| - 1;
    assert ReadsVersion(u, s, k, now, m) ==> i < m;
  }

  /** The hypothesis in a client's terms. */
  lemma FirstTimeSetsAreNeverHidden(u: Setup, actions: seq<Action>, i: int, k: Key, now: I64)
    requires FirstTimeSets(u, RunActions(u, actions).history)
    requires Acknowledged(u, RunActions(u, actions), i)
    requires now >= 0
    ensures var s := RunActions(u, actions);
      (exists m :: i < m && ReadsVersion(u, s, k, now, m)) || (i < |s.history| - 1 && ReadsOwnSet(s, k, now))
  {
    FirstTimeSetsAreFaithful(u, RunActions(u, actions).history);
    AcknowledgedIsNeverHidden(u, actions, i, k, now);
  }

  // ---- inside the window a read may go back

  const OPENED := Setup(SOME_CAPS, 1, AfterFirst())
  const KEY: Key := ("p", "k")

  const SET_V2: Op := SetJob("", "v2", None).op

  /** A reader finds v1 stored and passes it on; a Set of v2 is committed; then the reader promotes the v1 it holds. */
  const FOUND_OLD: seq<Action> := [ReaderStart(0, KEY), ReaderRead(0, 0)]
  const APPLIED_SET: seq<Action> := [Submit(SET_V2), Gather(1), ApplyNext(0, None)]
  const PROMOTION: seq<Action> := [ReaderCheck(0), ReaderInsert(0, true, {})]

  const COMMITTED_SET: seq<Action> := FOUND_OLD + APPLIED_SET + [Commit]

  lemma RunNext(u: Setup, actions: seq<Action>, a: Action)
    ensures RunActions(u, actions + [a]) == Do(u, RunActions(u, actions), a)
  {
    assert (actions + [a])[..|actions|] == actions;
  }

  lemma RunTwo(u: Setup, actions: seq<Action>, a: Action, b: Action)
    ensures RunActions(u, actions + [a, b]) == Do(u, Do(u, RunActions(u, actions), a), b)
  {
    hide Do, RunActions;
    RunNext(u, actions, a);
    RunNext(u, actions + [a], b);
    assert actions + [a] + [b] == actions + [a, b];
  }

  /** The reader holds the old row, and the new one is applied to the tables of the batch. */
  const HELD: State := Init(OPENED).(readers := map[0 := Holding(KEY, 0, StoredRow("v1", None))])
  const WORKED: State :=
    HELD.(nextId := 1, phase := Applying([Job(0, SET_V2)], [SetJob("", "v2", None)], AfterSecond(), [Ok("ok")]))
  const IN_WINDOW: State :=
    HELD.(nextId := 1, durable := AfterSecond(), phase := Publishing([Job(0, SET_V2)], [Ok("ok")], 0, Untouched),
          history := [Entry([0], Batch([SetJob("", "v2", None)], None))])

  lemma OldRowIsHeld()
    ensures RunActions(OPENED, FOUND_OLD) == HELD
  {
    RunTwo(OPENED, [], FOUND_OLD[0], FOUND_OLD[1]);
    assert [] + [FOUND_OLD[0], FOUND_OLD[1]] == FOUND_OLD;
    assert map[0 := Started(KEY, 0)][0 := Holding(KEY, 0, StoredRow("v1", None))] == HELD.readers;
  }

  lemma SetIsGathered()
    ensures Do(OPENED, Do(OPENED, HELD, Submit(SET_V2)), Gather(1))
         == HELD.(nextId := 1, phase := Applying([Job(0, SET_V2)], [], AfterFirst(), []))
  {
    var queue := [Job(0, SET_V2)];
    assert [] + queue == queue && queue[..1] == queue && queue[1..] == [];
  }

  lemma GatheredSetIsApplied()
    ensures Do(OPENED, HELD.(nextId := 1, phase := Applying([Job(0, SET_V2)], [], AfterFirst(), [])), ApplyNext(0, None)) == WORKED
  {
    FirstTwoSets();
    hide Step;
    assert Attempt(SET_V2, 0, None) == SetJob("", "v2", None);
    assert [] + [SetJob("", "v2", None)] == [SetJob("", "v2", None)];
    var r: seq<Reply> := [];
    assert r + [Ok("ok")] == [Ok("ok")];
  }

  lemma SetIsApplied()
    ensures RunActions(OPENED, FOUND_OLD + APPLIED_SET) == WORKED
  {
    hide Do, RunActions;
    OldRowIsHeld();
    SetIsGathered();
    GatheredSetIsApplied();
    RunTwo(OPENED, FOUND_OLD, APPLIED_SET[0], APPLIED_SET[1]);
    RunNext(OPENED, FOUND_OLD + [APPLIED_SET[0], APPLIED_SET[1]], APPLIED_SET[2]);
    assert FOUND_OLD + [APPLIED_SET[0], APPLIED_SET[1]] + [APPLIED_SET[2]] == FOUND_OLD + APPLIED_SET;
  }

  lemma SetIsCommitted()
    ensures RunActions(OPENED, COMMITTED_SET) == IN_WINDOW
  {
    SetIsApplied();
    RunNext(OPENED, FOUND_OLD + APPLIED_SET, Commit);
    assert JobIds([Job(0, SET_V2)]) == [0];
  }

  lemma OldRowIsPromoted()
    ensures Do(OPENED, Do(OPENED, IN_WINDOW, PROMOTION[0]), PROMOTION[1])
         == IN_WINDOW.(readers := map[], cache := map[KEY := MemRow("v1", None)])
  {
    assert map[0 := Cleared(KEY, 0, StoredRow("v1", None))] - {0} == map[];
    assert map[KEY := MemRow("v1", None)] - {} == map[KEY := MemRow("v1", None)];
  }

  lemma TheSetIsFirstTime()
    ensures FirstTimeSets(OPENED, IN_WINDOW.history)
  {
    assert IN_WINDOW.history[..0] == [];
    var jobs := [SetJob("", "v2", None)];
    assert FirstTime(SOME_CAPS, AfterFirst(), jobs);
  }

  /**
   Between the commit and the publication of a first-time Set, one read answers its value and a later one the value it replaced; no
   answer has gone out yet.
   */
  lemma ReadsGoBackInTheWindow(now: I64)
    requires now >= 0
    ensures
      var s, s' := RunActions(OPENED, COMMITTED_SET), RunActions(OPENED, COMMITTED_SET + PROMOTION);
      && ReadThrough(s, KEY, now) == Some("v2")
      && ReadThrough(s', KEY, now) == Some("v1")
      && s'.acks == [] && Unpublished(s'.phase, KEY)
      && FirstTimeSets(OPENED, s'.history)
  {
    SetIsCommitted();
    OldRowIsPromoted();
    TheSetIsFirstTime();
    RunTwo(OPENED, COMMITTED_SET, PROMOTION[0], PROMOTION[1]);
    assert COMMITTED_SET + [PROMOTION[0], PROMOTION[1]] == COMMITTED_SET + PROMOTION;
    hide Do, RunActions, FirstTimeSets;
    assert SetKey(IN_WINDOW.phase.jobs[0].op) == KEY;
  }
}
