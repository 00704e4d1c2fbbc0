/** A write id takes effect once over every run of the store, its crashes and failed batches included. */
module WriteIds {
  import opened Prelude
  import opened HotTables
  import opened GroupCommit
  import opened Engine
  import opened StoreLaws

  /** Job `j` of the committed batch `i` carries the write id and was answered `v`. */
  predicate AnsweredAt(u: Setup, h: seq<Entry>, i: int, j: int, id: string, v: string) {
    && 0 <= i < |h| && h[i].batch.failure.None? && 0 <= j < |h[i].batch.jobs|
    && Named(h[i].batch.jobs[j].op, id)
    && Run(u.caps, After(u, h[..i]), h[i].batch.jobs).1[j] == Ok(v)
  }

  predicate RecordedAs(t: Tables, id: string, v: string) {
    id in t.applied && t.applied[id] == v
  }

  lemma {:induction false} RunKeepsRecord(caps: Caps, t: Tables, jobs: seq<Attempt>, id: string, v: string)
    requires RecordedAs(t, id, v)
    ensures RecordedAs(Run(caps, t, jobs).0, id, v)
  {
    if jobs != [] {
      var n := |jobs| - 1;
      RunKeepsRecord(caps, t, jobs[..n], id, v);
      StepKeepsRecords(caps, Run(caps, t, jobs[..n]).0, jobs[n], id);
    }
  }

  lemma AnswerRecords(caps: Caps, t: Tables, jobs: seq<Attempt>, j: nat, id: string, v: string)
    requires j < |jobs| && Named(jobs[j].op, id) && Run(caps, t, jobs).1[j] == Ok(v)
    ensures RecordedAs(Run(caps, t, jobs[..j + 1]).0, id, v) && RecordedAs(Run(caps, t, jobs).0, id, v)
  {
    RunPrefix(caps, t, jobs, j);
    StepRecords(caps, Run(caps, t, jobs[..j]).0, jobs[j], id);
    assert jobs == jobs[..j + 1] + jobs[j + 1..];
    RunAppend(caps, t, jobs[..j + 1], jobs[j + 1..]);
    RunKeepsRecord(caps, Run(caps, t, jobs[..j + 1]).0, jobs[j + 1..], id, v);
  }

  lemma AfterNext(u: Setup, h: seq<Entry>, i: nat)
    requires i < |h|
    ensures After(u, h[..i + 1]) == RunBatch(u.caps, After(u, h[..i]), h[i].batch).0
  {
    assert h[..i + 1] == h[..i] + [h[i]];
    AfterAppend(u, h[..i], h[i]);
  }

  /** Once answered the id stays recorded with that answer, from batch to batch. */
  lemma {:induction false} RecordLasts(u: Setup, h: seq<Entry>, i: int, j: int, id: string, v: string, k: nat)
    requires AnsweredAt(u, h, i, j, id, v) && i < k <= |h|
    ensures RecordedAs(After(u, h[..k]), id, v)
  {
    AfterNext(u, h, k - 1);
    if k == i + 1 {
      AnswerRecords(u.caps, After(u, h[..i]), h[i].batch.jobs, j, id, v);
    } else {
      RecordLasts(u, h, i, j, id, v, k - 1);
      RunKeepsRecord(u.caps, After(u, h[..k - 1]), h[k - 1].batch.jobs, id, v);
    }
  }

  /** Job `j2` of batch `i2` comes after job `j` of batch `i`. */
  predicate Later(i: int, j: int, i2: int, j2: int) {
    i < i2 || (i == i2 && j < j2)
  }

  /**
   Once a job with a write id was answered in a committed batch, every later one with that id, in the same batch or after any crashes and
   failed batches, changes nothing and is answered the same, unless storage fails under it.
   */
  lemma WriteIdIsOnce(u: Setup, h: seq<Entry>, i: int, j: int, i2: int, j2: int, id: string, v: string)
    requires AnsweredAt(u, h, i, j, id, v) && Later(i, j, i2, j2)
    requires i2 < |h| && 0 <= j2 < |h[i2].batch.jobs| && h[i2].batch.failure.None? && Named(h[i2].batch.jobs[j2].op, id)
    ensures var (t, jobs) := (After(u, h[..i2]), h[i2].batch.jobs);
      && Run(u.caps, t, jobs[..j2 + 1]).0 == Run(u.caps, t, jobs[..j2]).0
      && Run(u.caps, t, jobs).1[j2] == if jobs[j2].fault.Some? then Err(jobs[j2].fault.value) else Ok(v)
  {
    var t, jobs := After(u, h[..i2]), h[i2].batch.jobs;
    if i == i2 {
      FirstAnswerStands(u.caps, t, jobs, j, j2, id);
    } else {
      RecordLasts(u, h, i, j, id, v, i2);
      RunKeepsRecord(u.caps, t, jobs[..j2], id, v);
      RunPrefix(u.caps, t, jobs, j2);
      StepRecords(u.caps, Run(u.caps, t, jobs[..j2]).0, jobs[j2], id);
    }
  }

  /** The acknowledged job is job `j` of batch `i`, and carries the write id. */
  predicate AckedAt(u: Setup, s: State, a: Ack, i: int, j: int, id: string) {
    && a in s.acks && a.reply.Ok? && AnsweredAt(u, s.history, i, j, id, a.reply.value)
    && j < |s.history[i].ids| && s.history[i].ids[j] == a.id
  }

  /** What is acknowledged under a write id is recorded under it, in the committed tables that any crash leaves. */
  lemma AckedIsRecorded(u: Setup, actions: seq<Action>, a: Ack, i: int, j: int, id: string)
    requires AckedAt(u, RunActions(u, actions), a, i, j, id)
    ensures RecordedAs(RunActions(u, actions).durable, id, a.reply.value)
  {
    var s := RunActions(u, actions);
    DurableAlways(u, actions);
    assert s.history[..|s.history|] == s.history;
    RecordLasts(u, s.history, i, j, id, a.reply.value, |s.history|);
  }

  /** However often a client repeats a write under its id, over crashes and failed batches, all acknowledgements say the same. */
  lemma AcksOfOneIdAgree(u: Setup, actions: seq<Action>, a: Ack, i: int, j: int, b: Ack, i2: int, j2: int, id: string)
    requires AckedAt(u, RunActions(u, actions), a, i, j, id) && AckedAt(u, RunActions(u, actions), b, i2, j2, id)
    ensures a.reply == b.reply
  {
    AckedIsRecorded(u, actions, a, i, j, id);
    AckedIsRecorded(u, actions, b, i2, j2, id);
  }

  /** Every acknowledged write with an id is such a job: the two laws speak of all of them. */
  lemma EveryAckIsAt(u: Setup, actions: seq<Action>, a: Ack) returns (i: int, j: int)
    requires a in RunActions(u, actions).acks && a.reply.Ok?
    ensures var h := RunActions(u, actions).history;
      && 0 <= i < |h| && h[i].batch.failure.None? && 0 <= j < |h[i].batch.jobs| && j < |h[i].ids| && h[i].ids[j] == a.id
      && (h[i].batch.jobs[j].op.Proj? && h[i].batch.jobs[j].op.writeId != "" ==>
            AckedAt(u, RunActions(u, actions), a, i, j, h[i].batch.jobs[j].op.writeId))
  {
    var s := RunActions(u, actions);
    DurableAlways(u, actions);
    assert InCommitted(u, s.history, a.id, a.reply);
    i :| AnsweredBy(u, s.history, i, a.id, a.reply);
    j :| 0 <= j < |s.history[i].ids| == |s.history[i].batch.jobs| && s.history[i].ids[j] == a.id
         && RunBatch(u.caps, After(u, s.history[..i]), s.history[i].batch).1[j] == a.reply;
  }
}
