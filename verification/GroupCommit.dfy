/** Group commit: batches, one transaction each, published and answered; how the queue was cut is invisible. */
module GroupCommit {
  import opened Prelude
  import opened HotTables
  import opened MemLayer

  /** A batch as it went: its jobs, and the error that failed the whole transaction, if one did. */
  datatype Batch = Batch(jobs: seq<Attempt>, failure: Option<DbError>)

  function RunBatch(caps: Caps, t: Tables, b: Batch): (r: (Tables, seq<Reply>))
    ensures |r.1| == |b.jobs|
  {
    match b.failure
    case None => Run(caps, t, b.jobs)
    case Some(e) => (t, Repeat(Err(e), |b.jobs|))
  }

  function Repeat(r: Reply, n: nat): (rs: seq<Reply>)
    ensures |rs| == n
    ensures forall i :: 0 <= i < n ==> rs[i] == r
  {
    if n == 0 then [] else Repeat(r, n - 1) + [r]
  }

  function RunBatches(caps: Caps, t: Tables, bs: seq<Batch>): (Tables, seq<Reply>) {
    if bs == [] then (t, []) else
      var before := RunBatches(caps, t, bs[..|bs| - 1]);
      var last := RunBatch(caps, before.0, bs[|bs| - 1]);
      (last.0, before.1 + last.1)
  }

  /** The jobs of a batch on their own: each job of a failed batch fails with the batch's error. */
  function Alone(b: Batch): seq<Attempt> {
    match b.failure
    case None => b.jobs
    case Some(e) => seq(|b.jobs|, i requires 0 <= i < |b.jobs| => b.jobs[i].(fault := Some(e)))
  }

  function OneByOne(bs: seq<Batch>): seq<Attempt> {
    if bs == [] then [] else OneByOne(bs[..|bs| - 1]) + Alone(bs[|bs| - 1])
  }

  lemma {:induction false} FailedJobsChangeNothing(caps: Caps, t: Tables, jobs: seq<Attempt>, e: DbError)
    requires forall i :: 0 <= i < |jobs| ==> jobs[i].fault == Some(e)
    ensures Run(caps, t, jobs) == (t, Repeat(Err(e), |jobs|))
  {
    if jobs != [] {
      FailedJobsChangeNothing(caps, t, jobs[..|jobs| - 1], e);
    }
  }

  /** However the queue was cut, and whichever commits failed, the outcome is the one-at-a-time run's. */
  lemma {:induction false} BatchesRunOneByOne(caps: Caps, t: Tables, bs: seq<Batch>)
    ensures RunBatches(caps, t, bs) == Run(caps, t, OneByOne(bs))
  {
    if bs != [] {
      var init, last := bs[..|bs| - 1], bs[|bs| - 1];
      BatchesRunOneByOne(caps, t, init);
      RunAppend(caps, t, OneByOne(init), Alone(last));
      if last.failure.Some? {
        FailedJobsChangeNothing(caps, RunBatches(caps, t, init).0, Alone(last), last.failure.value);
      }
    }
  }

  /** Two ways of cutting the same jobs, every commit succeeding, are told apart by nothing. */
  lemma CutIsInvisible(caps: Caps, t: Tables, bs: seq<Batch>, cs: seq<Batch>)
    requires OneByOne(bs) == OneByOne(cs)
    ensures RunBatches(caps, t, bs) == RunBatches(caps, t, cs)
  {
    BatchesRunOneByOne(caps, t, bs);
    BatchesRunOneByOne(caps, t, cs);
  }

  /** A failed batch leaves no trace: dropping it from the history gives the same tables. */
  lemma {:induction false} FailedBatchLeavesNoTrace(caps: Caps, t: Tables, before: seq<Batch>, failed: Batch, after: seq<Batch>)
    requires failed.failure.Some?
    ensures RunBatches(caps, t, before + [failed] + after).0 == RunBatches(caps, t, before + after).0
    decreases |after|
  {
    if after == [] {
      assert (before + [failed] + after)[..|before|] == before;
      assert before + after == before;
    } else {
      var init := after[..|after| - 1];
      FailedBatchLeavesNoTrace(caps, t, before, failed, init);
      assert (before + [failed] + after)[..|before + [failed] + after| - 1] == before + [failed] + init;
      assert (before + after)[..|before + after| - 1] == before + init;
    }
  }

  function Ops(jobs: seq<Attempt>): seq<Op> {
    seq(|jobs|, i requires 0 <= i < |jobs| => jobs[i].op)
  }

  predicate AllBarriers(ops: seq<Op>) {
    forall i :: 0 <= i < |ops| ==> ops[i].Barrier?
  }

  /** The writer thread's state: the committed tables, the memory layer, the commit counters and the answers sent. */
  class Writer {
    const caps: Caps
    const mem: Mem
    var durable: Tables
    var commits: nat
    var writes: nat
    var sent: seq<Reply>

    constructor (caps: Caps, t: Tables, mem: Mem)
      ensures this.caps == caps && this.mem == mem && durable == t && commits == 0 && writes == 0 && sent == []
    {
      this.caps, this.mem, durable, commits, writes, sent := caps, mem, t, 0, 0, [];
    }

    /** The whole batch in one transaction; the transaction itself can fail before, between or after the jobs. */
    method RunTx(batch: seq<Op>) returns (results: seq<Reply>, done: Batch)
      modifies this`durable
      ensures Ops(done.jobs) == batch
      ensures done.failure.None? ==> (durable, results) == RunBatch(caps, old(durable), done)
      ensures done.failure.Some? ==> durable == old(durable)
    {
      var tx := new Conn(caps, durable);
      var jobs: seq<Attempt> := [];
      results := [];
      var broken := tx.Trouble();
      var i := 0;
      while i < |batch| && broken.None?
        invariant 0 <= i <= |batch| && |jobs| == i
        invariant fresh(tx) && tx.caps == caps
        invariant Ops(jobs) == batch[..i]
        invariant durable == old(durable)
        invariant (tx.work, results) == Run(caps, durable, jobs)
        decreases |batch| - i, broken.None?
      {
        broken := tx.Trouble();
        if broken.None? {
          var r, a := tx.RunInSavepoint(batch[i]);
          assert (jobs + [a])[..i] == jobs;
          jobs, results := jobs + [a], results + [r];
          i := i + 1;
          if r.Ok? {
            broken := tx.Trouble();
          }
        }
      }
      if broken.None? {
        broken := tx.Trouble();
      }
      if broken.Some? {
        done := Batch(jobs + seq(|batch| - |jobs|, k requires 0 <= k < |batch| - |jobs| => Attempt(batch[|jobs| + k], 0, None)), broken);
      } else {
        durable := tx.work;
        done := Batch(jobs, None);
      }
    }

    /** Make the committed writes active, in batch order. */
    method Publish(batch: seq<Op>, results: seq<Reply>)
      requires |batch| == |results|
      modifies mem
      ensures mem.sequence == old(mem.sequence) + CountPublished(batch, results)
      ensures Within(mem.kv, PublishAll(old(mem.kv), batch, results))
    {
      for i := 0 to |batch|
        invariant mem.sequence == old(mem.sequence) + CountPublished(batch[..i], results[..i])
        invariant Within(mem.kv, PublishAll(old(mem.kv), batch[..i], results[..i]))
      {
        assert batch[..i + 1][..i] == batch[..i] && results[..i + 1][..i] == results[..i];
        if results[i].Ok? {
          mem.Committed(batch[i]);
        }
      }
      assert batch[..|batch|] == batch && results[..|batch|] == results;
    }

    /** Apply a batch, publish what it committed, then answer every job. */
    method CommitBatch(batch: seq<Op>) returns (results: seq<Reply>, done: Batch)
      modifies this`durable, this`commits, this`writes, this`sent, mem
      ensures Ops(done.jobs) == batch
      ensures (durable, results) == RunBatch(caps, old(durable), done)
      ensures AllBarriers(batch) ==> done.failure.None? && durable == old(durable) && commits == old(commits)
      ensures !AllBarriers(batch) && done.failure.None? ==> commits == old(commits) + 1 && writes == old(writes) + |batch|
      ensures done.failure.Some? ==> commits == old(commits) && writes == old(writes)
      ensures mem.sequence == old(mem.sequence) + CountPublished(batch, results)
      ensures Within(mem.kv, PublishAll(old(mem.kv), batch, results))
      ensures sent == old(sent) + results
    {
      if AllBarriers(batch) {
        results := Repeat(Ok(""), |batch|);
        done := Batch(seq(|batch|, i requires 0 <= i < |batch| => Attempt(batch[i], 0, None)), None);
        BarriersDoNothing(caps, durable, done.jobs);
      } else {
        results, done := RunTx(batch);
        if done.failure.None? {
          commits, writes := commits + 1, writes + |batch|;
        } else {
          results := Repeat(Err(done.failure.value), |batch|);
        }
      }
      Publish(batch, results);
      sent := sent + results;
    }
  }

  lemma {:induction false} BarriersDoNothing(caps: Caps, t: Tables, jobs: seq<Attempt>)
    requires forall i :: 0 <= i < |jobs| ==> jobs[i].op.Barrier? && jobs[i].fault.None?
    ensures Run(caps, t, jobs) == (t, Repeat(Ok(""), |jobs|))
  {
    if jobs != [] {
      BarriersDoNothing(caps, t, jobs[..|jobs| - 1]);
    }
  }
}
