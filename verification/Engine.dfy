/** The running store: clients, the writer thread, readers, eviction and crashes, step by step. */
module Engine {
  import opened Prelude
  import opened HotTables
  import opened MemLayer
  import opened GroupCommit

  // Clients submit writes, the writer thread gathers, applies, commits, publishes and answers, readers promote what they read from the
  // database, memory evicts, and the process may crash between any two steps. Every action is one atomic step of the original; a run is
  // any sequence of actions, an action that is not possible changing nothing.

  datatype Job = Job(id: nat, op: Op)

  /** Publishing one Set is three atomic sections: bump the sequence, forget the old value, insert the new one. */
  datatype Stage = Untouched | Bumped | Forgotten

  datatype Phase =
    | Idle
    | Applying(jobs: seq<Job>, done: seq<Attempt>, work: Tables, replies: seq<Reply>)
    | Publishing(jobs: seq<Job>, replies: seq<Reply>, next: nat, stage: Stage)
    | Answering(jobs: seq<Job>, replies: seq<Reply>, next: nat)

  /** A reader that missed the cache: it takes the sequence, reads the row, makes the first checks, then tries to insert. */
  datatype Reader =
    | Started(key: Key, seen: nat)
    | Holding(key: Key, seen: nat, row: KvRow)
    | Cleared(key: Key, seen: nat, row: KvRow)

  datatype Ack = Ack(id: nat, reply: Reply)

  /** A finished batch: the ids of its jobs and how it went. */
  datatype Entry = Entry(ids: seq<nat>, batch: Batch)

  datatype State = State(
    durable: Tables,
    queue: seq<Job>,
    phase: Phase,
    cache: map<Key, MemRow>,
    sequence: nat,
    readers: map<nat, Reader>,
    nextId: nat,
    history: seq<Entry>,
    acks: seq<Ack>)

  datatype Action =
    | Submit(op: Op)
    | Gather(count: nat)
    | ApplyNext(now: int, fault: Option<DbError>)
    | Commit
    | Abort(error: DbError)
    | PublishStep(admitted: bool, evicted: set<Key>)
    | Answer
    | ReaderStart(id: nat, key: Key)
    | ReaderRead(id: nat, now: int)
    | ReaderCheck(id: nat)
    | ReaderInsert(id: nat, admitted: bool, evicted: set<Key>)
    | Evict(evicted: set<Key>)
    | Crash

  /** The fixed circumstances of a run: the caps, the queue's bound and the tables the store was opened with. */
  datatype Setup = Setup(caps: Caps, queueBound: nat, initial: Tables)

  function Init(u: Setup): State {
    State(u.initial, [], Idle, map[], 0, map[], 0, [], [])
  }

  function JobOps(jobs: seq<Job>): seq<Op> {
    seq(|jobs|, i requires 0 <= i < |jobs| => jobs[i].op)
  }

  function JobIds(jobs: seq<Job>): seq<nat> {
    seq(|jobs|, i requires 0 <= i < |jobs| => jobs[i].id)
  }

  function Untried(jobs: seq<Job>): seq<Attempt> {
    seq(|jobs|, i requires 0 <= i < |jobs| => Attempt(jobs[i].op, 0, None))
  }

  /** The writer's part of a step. */
  function WriterStep(u: Setup, s: State, a: Action): State {
    match (a, s.phase)
    case (Gather(n), Idle) =>
      if 0 < n <= |s.queue|
      then s.(queue := s.queue[n..], phase := Applying(s.queue[..n], [], s.durable, []))
      else s
    case (ApplyNext(now, fault), Applying(jobs, done, work, replies)) =>
      if |done| < |jobs| then
        var job := Attempt(jobs[|done|].op, now, fault);
        var (work', r) := Step(u.caps, work, job);
        s.(phase := Applying(jobs, done + [job], work', replies + [r]))
      else s
    case (Commit, Applying(jobs, done, work, replies)) =>
      if |done| == |jobs| then
        s.(durable := work, phase := Publishing(jobs, replies, 0, Untouched),
           history := s.history + [Entry(JobIds(jobs), Batch(done, None))])
      else s
    case (Abort(e), Applying(jobs, done, work, replies)) =>
      if |done| <= |jobs| && !AllBarriers(JobOps(jobs)) then
        s.(phase := Publishing(jobs, Repeat(Err(e), |jobs|), 0, Untouched),
           history := s.history + [Entry(JobIds(jobs), Batch(done + Untried(jobs[|done|..]), Some(e)))])
      else s
    case (PublishStep(admitted, evicted), Publishing(jobs, replies, next, stage)) =>
      if next >= |jobs| || next >= |replies| then s.(phase := Answering(jobs, replies, 0))
      else if !Publishes(jobs[next].op, replies[next]) then s.(phase := Publishing(jobs, replies, next + 1, Untouched))
      else
        (match stage
         case Untouched => s.(sequence := s.sequence + 1, phase := s.phase.(stage := Bumped))
         case Bumped => s.(cache := s.cache - {SetKey(jobs[next].op)}, phase := s.phase.(stage := Forgotten))
         case Forgotten =>
           s.(cache := if admitted then s.cache[SetKey(jobs[next].op) := SetRow(jobs[next].op)] - evicted else s.cache,
              phase := Publishing(jobs, replies, next + 1, Untouched)))
    case (Answer, Answering(jobs, replies, next)) =>
      if next < |jobs| && next < |replies|
      then s.(acks := s.acks + [Ack(jobs[next].id, replies[next])], phase := Answering(jobs, replies, next + 1))
      else s.(phase := Idle)
    case _ => s
  }

  /** A reader's part of a step. */
  function ReaderStep(s: State, a: Action): State {
    match a
    case ReaderStart(id, key) => s.(readers := s.readers[id := Started(key, s.sequence)])
    case ReaderRead(id, now) =>
      if id in s.readers && s.readers[id].Started? then
        var r := s.readers[id];
        if r.key in s.durable.kv && Active(s.durable.kv[r.key], now)
        then s.(readers := s.readers[id := Holding(r.key, r.seen, s.durable.kv[r.key])])
        else s.(readers := s.readers - {id})
      else s
    case ReaderCheck(id) =>
      if id in s.readers && s.readers[id].Holding? then
        var r := s.readers[id];
        if s.sequence == r.seen && r.key !in s.cache
        then s.(readers := s.readers[id := Cleared(r.key, r.seen, r.row)])
        else s.(readers := s.readers - {id})
      else s
    case ReaderInsert(id, admitted, evicted) =>
      if id in s.readers && s.readers[id].Cleared? then
        var r := s.readers[id];
        var s' := s.(readers := s.readers - {id});
        if admitted && s.sequence == r.seen && r.key !in s.cache
        then s'.(cache := s.cache[r.key := Promoted(r.row)] - evicted)
        else s'
      else s
    case _ => s
  }

  function Do(u: Setup, s: State, a: Action): State {
    match a
    case Submit(op) =>
      if |s.queue| < u.queueBound
      then s.(queue := s.queue + [Job(s.nextId, op)], nextId := s.nextId + 1)
      else s
    case Evict(evicted) => s.(cache := s.cache - evicted)
    case Crash => s.(queue := [], phase := Idle, cache := map[], sequence := 0, readers := map[])
    case ReaderStart(_, _) => ReaderStep(s, a)
    case ReaderRead(_, _) => ReaderStep(s, a)
    case ReaderCheck(_) => ReaderStep(s, a)
    case ReaderInsert(_, _, _) => ReaderStep(s, a)
    case _ => WriterStep(u, s, a)
  }

  function RunActions(u: Setup, actions: seq<Action>): State {
    if actions == [] then Init(u) else
      Do(u, RunActions(u, actions[..|actions| - 1]), actions[|actions| - 1])
  }

  // ---- durability

  function Batches(history: seq<Entry>): seq<Batch> {
    seq(|history|, i requires 0 <= i < |history| => history[i].batch)
  }

  /** The tables after the first finished batches. */
  function After(u: Setup, history: seq<Entry>): Tables {
    RunBatches(u.caps, u.initial, Batches(history)).0
  }

  lemma AfterAppend(u: Setup, history: seq<Entry>, e: Entry)
    ensures After(u, history + [e]) == RunBatch(u.caps, After(u, history), e.batch).0
  {
    var bs := Batches(history + [e]);
    assert bs[..|bs| - 1] == Batches(history);
  }

  /** Entry `i` of the history is a committed batch that answered `reply` to the job `id`. */
  ghost predicate AnsweredBy(u: Setup, history: seq<Entry>, i: int, id: nat, reply: Reply) {
    && 0 <= i < |history|
    && history[i].batch.failure.None?
    && exists j ::
         && 0 <= j < |history[i].ids| == |history[i].batch.jobs|
         && history[i].ids[j] == id
         && RunBatch(u.caps, After(u, history[..i]), history[i].batch).1[j] == reply
  }

  ghost predicate InCommitted(u: Setup, history: seq<Entry>, id: nat, reply: Reply) {
    exists i :: AnsweredBy(u, history, i, id, reply)
  }

  /** The batch being published or answered is the last one finished, with these replies. */
  predicate LastEntry(u: Setup, history: seq<Entry>, jobs: seq<Job>, replies: seq<Reply>) {
    && history != []
    && var n := |history| - 1;
       && history[n].ids == JobIds(jobs)
       && |history[n].batch.jobs| == |jobs|
       && replies == RunBatch(u.caps, After(u, history[..n]), history[n].batch).1
       && Ops(history[n].batch.jobs) == JobOps(jobs)
  }

  ghost predicate Durable(u: Setup, s: State) {
    && s.durable == After(u, s.history)
    && (match s.phase
        case Idle => true
        case Applying(jobs, done, work, replies) =>
          && |done| <= |jobs|
          && Ops(done) == JobOps(jobs[..|done|])
          && (work, replies) == Run(u.caps, s.durable, done)
        case Publishing(jobs, replies, _, _) => LastEntry(u, s.history, jobs, replies)
        case Answering(jobs, replies, _) => LastEntry(u, s.history, jobs, replies))
    && forall a :: a in s.acks && a.reply.Ok? ==> InCommitted(u, s.history, a.id, a.reply)
  }

  lemma CommittedStays(u: Setup, history: seq<Entry>, e: Entry, id: nat, reply: Reply)
    requires InCommitted(u, history, id, reply)
    ensures InCommitted(u, history + [e], id, reply)
  {
    var i :| AnsweredBy(u, history, i, id, reply);
    assert (history + [e])[..i] == history[..i];
    assert AnsweredBy(u, history + [e], i, id, reply);
  }

  lemma FinishKeepsDurable(u: Setup, s: State, e: Entry, jobs: seq<Job>, replies: seq<Reply>)
    requires Durable(u, s)
    requires e.ids == JobIds(jobs) && Ops(e.batch.jobs) == JobOps(jobs)
    requires replies == RunBatch(u.caps, s.durable, e.batch).1
    ensures LastEntry(u, s.history + [e], jobs, replies)
    ensures After(u, s.history + [e]) == RunBatch(u.caps, s.durable, e.batch).0
    ensures forall a :: a in s.acks && a.reply.Ok? ==> InCommitted(u, s.history + [e], a.id, a.reply)
  {
    AfterAppend(u, s.history, e);
    assert |Ops(e.batch.jobs)| == |JobOps(jobs)|;
    assert (s.history + [e])[..|s.history|] == s.history;
    forall a | a in s.acks && a.reply.Ok? ensures InCommitted(u, s.history + [e], a.id, a.reply) {
      CommittedStays(u, s.history, e, a.id, a.reply);
    }
  }

  lemma AnswerIsCommitted(u: Setup, history: seq<Entry>, jobs: seq<Job>, replies: seq<Reply>, next: nat)
    requires LastEntry(u, history, jobs, replies) && next < |jobs|
    requires replies[next].Ok?
    ensures InCommitted(u, history, jobs[next].id, replies[next])
  {
    var n := |history| - 1;
    assert history[n].ids[next] == jobs[next].id;
    assert AnsweredBy(u, history, n, jobs[next].id, replies[next]);
  }

  lemma ApplyKeepsDurable(u: Setup, s: State, now: int, fault: Option<DbError>)
    requires Durable(u, s) && s.phase.Applying?
    ensures Durable(u, Do(u, s, ApplyNext(now, fault)))
  {
    var jobs, done := s.phase.jobs, s.phase.done;
    if |done| < |jobs| {
      var job := Attempt(jobs[|done|].op, now, fault);
      assert (done + [job])[..|done|] == done;
      assert Ops(done + [job]) == Ops(done) + [job.op] == JobOps(jobs[..|done| + 1]);
    }
  }

  lemma FinishBatchKeepsDurable(u: Setup, s: State, a: Action)
    requires Durable(u, s) && s.phase.Applying? && (a.Commit? || a.Abort?)
    ensures Durable(u, Do(u, s, a))
  {
    var jobs, done, replies := s.phase.jobs, s.phase.done, s.phase.replies;
    if a.Commit? && |done| == |jobs| {
      assert jobs[..|done|] == jobs;
      FinishKeepsDurable(u, s, Entry(JobIds(jobs), Batch(done, None)), jobs, replies);
    }
    if a.Abort? && !AllBarriers(JobOps(jobs)) {
      var tried := done + Untried(jobs[|done|..]);
      assert Ops(tried) == Ops(done) + JobOps(jobs[|done|..]) == JobOps(jobs);
      assert |Ops(tried)| == |tried| && |JobOps(jobs)| == |jobs|;
      FinishKeepsDurable(u, s, Entry(JobIds(jobs), Batch(tried, Some(a.error))), jobs, Repeat(Err(a.error), |jobs|));
    }
  }

  lemma AnswerKeepsDurable(u: Setup, s: State)
    requires Durable(u, s) && s.phase.Answering?
    ensures Durable(u, Do(u, s, Answer))
  {
    var jobs, replies, next := s.phase.jobs, s.phase.replies, s.phase.next;
    if next < |jobs| && next < |replies| && replies[next].Ok? {
      AnswerIsCommitted(u, s.history, jobs, replies, next);
    }
  }

  lemma GatherKeepsDurable(u: Setup, s: State, n: nat)
    requires Durable(u, s) && s.phase.Idle?
    ensures Durable(u, Do(u, s, Gather(n)))
  {
    if 0 < n <= |s.queue| {
      assert Ops([]) == JobOps(s.queue[..n][..0]) == [];
    }
  }

  lemma PublishFrame(u: Setup, s: State, admitted: bool, evicted: set<Key>)
    requires s.phase.Publishing?
    ensures var s' := Do(u, s, PublishStep(admitted, evicted));
      && s'.durable == s.durable && s'.history == s.history && s'.acks == s.acks
      && (s'.phase.Publishing? || s'.phase.Answering?)
      && s'.phase.jobs == s.phase.jobs && s'.phase.replies == s.phase.replies
  {
  }

  lemma PublishKeepsDurable(u: Setup, s: State, s': State)
    requires Durable(u, s) && s.phase.Publishing?
    requires s'.durable == s.durable && s'.history == s.history && s'.acks == s.acks
    requires s'.phase.Publishing? || s'.phase.Answering?
    requires s'.phase.jobs == s.phase.jobs && s'.phase.replies == s.phase.replies
    ensures Durable(u, s')
  {
  }

  /** What concerns only the queue, the cache and the readers. */
  predicate OffWriter(a: Action) {
    !(a.Gather? || a.ApplyNext? || a.Commit? || a.Abort? || a.PublishStep? || a.Answer?)
  }

  lemma OffWriterFrame(u: Setup, s: State, a: Action)
    requires OffWriter(a)
    ensures var s' := Do(u, s, a);
      && s'.durable == s.durable && s'.history == s.history && s'.acks == s.acks
      && s'.phase == (if a.Crash? then Idle else s.phase)
  {
  }

  predicate Possible(s: State, a: Action) {
    match s.phase
    case Idle => a.Gather?
    case Applying(_, _, _, _) => a.ApplyNext? || a.Commit? || a.Abort?
    case Publishing(_, _, _, _) => a.PublishStep?
    case Answering(_, _, _) => a.Answer?
  }

  lemma ImpossibleChangesNothing(u: Setup, s: State, a: Action)
    requires !OffWriter(a) && !Possible(s, a)
    ensures Do(u, s, a) == s
  {
  }

  lemma StepKeepsDurable(u: Setup, s: State, a: Action)
    requires Durable(u, s)
    ensures Durable(u, Do(u, s, a))
  {
    if OffWriter(a) {
      OffWriterFrame(u, s, a);
    } else if !Possible(s, a) {
      ImpossibleChangesNothing(u, s, a);
    } else {
      match s.phase
      case Idle => GatherKeepsDurable(u, s, a.count);
      case Applying(_, _, _, _) =>
        if a.ApplyNext? { ApplyKeepsDurable(u, s, a.now, a.fault); } else { FinishBatchKeepsDurable(u, s, a); }
      case Publishing(_, _, _, _) =>
        PublishFrame(u, s, a.admitted, a.evicted);
        PublishKeepsDurable(u, s, Do(u, s, a));
      case Answering(_, _, _) => AnswerKeepsDurable(u, s);
    }
  }

  /**
   At every moment of every run, so at any crash: the committed tables are those of the whole batches finished so far, one job at a
   time, failed batches contributing nothing, and every job answered Ok is in a committed batch with the answer it got there.
   */
  lemma {:induction false} DurableAlways(u: Setup, actions: seq<Action>)
    ensures Durable(u, RunActions(u, actions))
    ensures RunActions(u, actions).durable == Run(u.caps, u.initial, OneByOne(Batches(RunActions(u, actions).history))).0
  {
    if actions != [] {
      var before := actions[..|actions| - 1];
      DurableAlways(u, before);
      StepKeepsDurable(u, RunActions(u, before), actions[|actions| - 1]);
    }
    BatchesRunOneByOne(u.caps, u.initial, Batches(RunActions(u, actions).history));
  }

  // ---- order

  function Finished(history: seq<Entry>): seq<nat> {
    if history == [] then [] else Finished(history[..|history| - 1]) + history[|history| - 1].ids
  }

  /** The ids of the jobs finished, under way and waiting, in that order. */
  function Line(s: State): seq<nat> {
    Finished(s.history) + (if s.phase.Applying? then JobIds(s.phase.jobs) else []) + JobIds(s.queue)
  }

  predicate Ascends(ids: seq<nat>, below: nat) {
    && (forall i, j :: 0 <= i < j < |ids| ==> ids[i] < ids[j])
    && forall i :: 0 <= i < |ids| ==> ids[i] < below
  }

  lemma GatherKeepsLine(u: Setup, s: State, n: nat)
    requires s.phase.Idle? && 0 < n <= |s.queue|
    ensures Line(WriterStep(u, s, Gather(n))) == Line(s)
  {
    var taken, left := s.queue[..n], s.queue[n..];
    assert JobIds(s.queue) == JobIds(taken) + JobIds(left);
    assert Finished(s.history) + [] + JobIds(s.queue) == Finished(s.history) + JobIds(taken) + JobIds(left);
  }

  lemma FinishKeepsLine(s: State, s': State)
    requires s.phase.Applying? && !s'.phase.Applying? && s'.queue == s.queue
    requires |s'.history| == |s.history| + 1 && s'.history[..|s.history|] == s.history
    requires s'.history[|s.history|].ids == JobIds(s.phase.jobs)
    ensures Line(s') == Line(s)
  {
    assert Finished(s'.history) + [] == Finished(s.history) + JobIds(s.phase.jobs);
  }

  lemma WriterKeepsLine(u: Setup, s: State, a: Action)
    requires !OffWriter(a)
    ensures Line(WriterStep(u, s, a)) == Line(s)
  {
    if s.phase.Idle? && a.Gather? && 0 < a.count <= |s.queue| {
      GatherKeepsLine(u, s, a.count);
    } else if s.phase.Applying? && (a.Commit? || a.Abort?) && WriterStep(u, s, a) != s {
      FinishKeepsLine(s, WriterStep(u, s, a));
    } else {
      LineFrame(u, s, a);
    }
  }

  lemma LineFrame(u: Setup, s: State, a: Action)
    requires !OffWriter(a) && !(s.phase.Idle? && a.Gather? && 0 < a.count <= |s.queue|)
    requires !(s.phase.Applying? && (a.Commit? || a.Abort?)) || WriterStep(u, s, a) == s
    ensures var s' := WriterStep(u, s, a);
      && s'.queue == s.queue && s'.history == s.history
      && (s'.phase.Applying? <==> s.phase.Applying?) && (s.phase.Applying? ==> s'.phase.jobs == s.phase.jobs)
  {
  }

  lemma AscendsAppend(ids: seq<nat>, below: nat)
    requires Ascends(ids, below)
    ensures Ascends(ids + [below], below + 1)
  {
  }

  lemma AscendsPrefix(ids: seq<nat>, more: seq<nat>, below: nat)
    requires Ascends(ids + more, below)
    ensures Ascends(ids, below)
  {
    assert forall i :: 0 <= i < |ids| ==> (ids + more)[i] == ids[i];
  }

  lemma OffWriterKeepsLine(u: Setup, s: State, a: Action)
    requires OffWriter(a) && Ascends(Line(s), s.nextId)
    ensures Ascends(Line(Do(u, s, a)), Do(u, s, a).nextId)
  {
    var s' := Do(u, s, a);
    var done, flight := Finished(s.history), if s.phase.Applying? then JobIds(s.phase.jobs) else [];
    if a.Submit? && |s.queue| < u.queueBound {
      assert JobIds(s'.queue) == JobIds(s.queue) + [s.nextId];
      assert Line(s') == Line(s) + [s.nextId];
      AscendsAppend(Line(s), s.nextId);
    } else if a.Crash? {
      assert Line(s') == done;
      assert Line(s) == done + (flight + JobIds(s.queue));
      AscendsPrefix(done, flight + JobIds(s.queue), s.nextId);
    } else {
      OffWriterFrame(u, s, a);
    }
  }

  /** Jobs finish in the order they were submitted, each at most once; a crash drops only a tail of the line. */
  lemma {:induction false} JobsFinishInOrder(u: Setup, actions: seq<Action>)
    ensures var s := RunActions(u, actions); Ascends(Line(s), s.nextId)
  {
    if actions != [] {
      var before := actions[..|actions| - 1];
      var s, a := RunActions(u, before), actions[|actions| - 1];
      JobsFinishInOrder(u, before);
      if OffWriter(a) {
        OffWriterKeepsLine(u, s, a);
      } else {
        WriterKeepsLine(u, s, a);
      }
    }
  }

  function AckIds(acks: seq<Ack>): seq<nat> {
    seq(|acks|, i requires 0 <= i < |acks| => acks[i].id)
  }

  /** The finished jobs whose answers may have gone out: not those of a batch being published, nor the rest of one being answered. */
  function Answerable(s: State): seq<nat>
    requires s.phase.Publishing? || s.phase.Answering? ==> s.history != []
  {
    if s.phase.Publishing? then Finished(s.history[..|s.history| - 1])
    else if s.phase.Answering? && s.phase.next <= |s.phase.jobs| then
      Finished(s.history[..|s.history| - 1]) + JobIds(s.phase.jobs)[..s.phase.next]
    else Finished(s.history)
  }

  predicate InOrderAnswered(s: State) {
    && (s.phase.Publishing? || s.phase.Answering? ==> s.history != [])
    && Ascends(AckIds(s.acks), s.nextId)
    && forall i :: 0 <= i < |s.acks| ==> AckIds(s.acks)[i] in Answerable(s)
  }

  lemma NextAnswerIsNew(answered: seq<nat>, done: seq<nat>, rest: seq<nat>, below: nat)
    requires Ascends(done + rest, below) && rest != []
    requires Ascends(answered, below) && forall i :: 0 <= i < |answered| ==> answered[i] in done
    ensures Ascends(answered + [rest[0]], below)
    ensures forall i :: 0 <= i <= |answered| ==> (answered + [rest[0]])[i] in done + [rest[0]]
  {
    forall i | 0 <= i < |answered| ensures answered[i] < rest[0] {
      AscendsAcross(done, rest, below, answered[i], rest[0]);
    }
    assert (done + rest)[|done|] == rest[0];
  }

  lemma AnswerKeepsOrder(u: Setup, s: State)
    requires Durable(u, s) && Ascends(Line(s), s.nextId) && InOrderAnswered(s) && s.phase.Answering?
    ensures InOrderAnswered(Do(u, s, Answer))
  {
    hide Ascends;
    var jobs, next := s.phase.jobs, s.phase.next;
    var early, ids := Finished(s.history[..|s.history| - 1]), JobIds(jobs);
    assert Finished(s.history) == early + ids;
    if next < |jobs| {
      var done, rest := early + ids[..next], ids[next..] + JobIds(s.queue);
      assert Line(s) == done + rest && ids[next] == rest[0];
      NextAnswerIsNew(AckIds(s.acks), done, rest, s.nextId);
      assert early + ids[..next + 1] == done + [ids[next]];
      assert AckIds(Do(u, s, Answer).acks) == AckIds(s.acks) + [ids[next]];
    }
  }

  lemma AnswerableGrows(u: Setup, s: State, a: Action, id: nat)
    requires Durable(u, s) && InOrderAnswered(s) && id in Answerable(s)
    requires !(a.Answer? && s.phase.Answering?)
    ensures var s' := Do(u, s, a); (s'.phase.Publishing? || s'.phase.Answering? ==> s'.history != []) && id in Answerable(s')
  {
    if OffWriter(a) {
      OffWriterFrame(u, s, a);
      if a.Crash? && s.phase.Answering? {
        assert Finished(s.history) == Finished(s.history[..|s.history| - 1]) + JobIds(s.phase.jobs);
      }
    } else if !Possible(s, a) {
      ImpossibleChangesNothing(u, s, a);
    } else {
      WriterKeepsAnswerable(u, s, a, id);
    }
  }

  lemma WriterKeepsAnswerable(u: Setup, s: State, a: Action, id: nat)
    requires Possible(s, a) && !s.phase.Answering? && !OffWriter(a)
    requires s.phase.Publishing? ==> s.history != []
    requires id in Answerable(s)
    ensures var s' := WriterStep(u, s, a);
      (s'.phase.Publishing? || s'.phase.Answering? ==> s'.history != []) && id in Answerable(s')
  {
    if s.phase.Publishing? {
      PublishFrame(u, s, a.admitted, a.evicted);
    }
  }

  /** Only an answer adds one. */
  lemma AcksFrame(u: Setup, s: State, a: Action)
    requires !(a.Answer? && s.phase.Answering?)
    ensures Do(u, s, a).acks == s.acks && Do(u, s, a).nextId >= s.nextId
  {
    if OffWriter(a) {
      OffWriterFrame(u, s, a);
    } else if !Possible(s, a) {
      ImpossibleChangesNothing(u, s, a);
    }
  }

  lemma OthersKeepAnswered(u: Setup, s: State, a: Action)
    requires Durable(u, s) && InOrderAnswered(s)
    requires !(a.Answer? && s.phase.Answering?)
    ensures InOrderAnswered(Do(u, s, a))
  {
    hide Do, Answerable, Durable;
    AcksFrame(u, s, a);
    assert Do(u, s, a).phase.Publishing? || Do(u, s, a).phase.Answering? ==> Do(u, s, a).history != [] by {
      StepKeepsDurable(u, s, a);
      DurableHasHistory(u, Do(u, s, a));
    }
    forall i | 0 <= i < |s.acks| ensures AckIds(s.acks)[i] in Answerable(Do(u, s, a)) {
      AnswerableGrows(u, s, a, AckIds(s.acks)[i]);
    }
  }

  lemma DurableHasHistory(u: Setup, s: State)
    requires Durable(u, s)
    ensures s.phase.Publishing? || s.phase.Answering? ==> s.history != []
  {
  }

  /**
   Answers go out in the order the jobs were submitted, each job is answered at most once and only once it is finished and published.
   */
  lemma {:induction false} AnswersComeInOrder(u: Setup, actions: seq<Action>)
    ensures InOrderAnswered(RunActions(u, actions))
  {
    if actions != [] {
      var before := actions[..|actions| - 1];
      var s, a := RunActions(u, before), actions[|actions| - 1];
      AnswersComeInOrder(u, before);
      hide InOrderAnswered, Durable, Line, Do;
      DurableAlways(u, before);
      JobsFinishInOrder(u, before);
      if a.Answer? && s.phase.Answering? {
        AnswerKeepsOrder(u, s);
      } else {
        OthersKeepAnswered(u, s, a);
      }
    }
  }

  lemma AscendsAcross(early: seq<nat>, late: seq<nat>, below: nat, a: nat, b: nat)
    requires Ascends(early + late, below) && a in early && b in late
    ensures a < b
  {
    var i :| 0 <= i < |early| && early[i] == a;
    var j :| 0 <= j < |late| && late[j] == b;
    assert (early + late)[i] == a && (early + late)[|early| + j] == b;
  }

  /** What is submitted and not finished. */
  function StillWaiting(s: State): seq<nat> {
    (if s.phase.Applying? then JobIds(s.phase.jobs) else []) + JobIds(s.queue)
  }

  lemma LineSplits(s: State)
    ensures Line(s) == Finished(s.history) + StillWaiting(s)
  {
  }

  lemma FinishedAscends(u: Setup, actions: seq<Action>)
    ensures var s := RunActions(u, actions); Ascends(Finished(s.history), s.nextId)
  {
    var s := RunActions(u, actions);
    JobsFinishInOrder(u, actions);
    LineSplits(s);
    AscendsPrefix(Finished(s.history), StillWaiting(s), s.nextId);
  }

  /** Once a job is answered, a barrier say, nothing submitted before it is still waiting: it is finished, or was lost in a crash. */
  lemma NothingEarlierWaits(u: Setup, actions: seq<Action>, a: Ack, id: nat)
    requires a in RunActions(u, actions).acks
    requires id in StillWaiting(RunActions(u, actions))
    ensures a.id < id
  {
    var s := RunActions(u, actions);
    hide *;
    AnsweredIsFinished(u, actions, a);
    JobsFinishInOrder(u, actions);
    LineSplits(s);
    AscendsAcross(Finished(s.history), StillWaiting(s), s.nextId, a.id, id);
  }

  lemma AnsweredIsFinished(u: Setup, actions: seq<Action>, a: Ack)
    requires a in RunActions(u, actions).acks
    ensures a.id in Finished(RunActions(u, actions).history)
  {
    var s := RunActions(u, actions);
    AnswersComeInOrder(u, actions);
    DurableAlways(u, actions);
    var c :| 0 <= c < |s.acks| && s.acks[c] == a;
    assert AckIds(s.acks)[c] == a.id;
    if s.phase.Publishing? || s.phase.Answering? {
      assert Finished(s.history) == Finished(s.history[..|s.history| - 1]) + JobIds(s.phase.jobs);
    }
  }

  /** The first ids, in order. */
  function FirstIds(n: nat): seq<nat> {
    seq(n, i requires 0 <= i < n => i)
  }

  lemma {:induction false} NothingIsLost(u: Setup, actions: seq<Action>)
    requires forall i :: 0 <= i < |actions| ==> !actions[i].Crash?
    ensures var s := RunActions(u, actions); Line(s) == FirstIds(s.nextId)
  {
    if actions != [] {
      var before := actions[..|actions| - 1];
      var s, a := RunActions(u, before), actions[|actions| - 1];
      NothingIsLost(u, before);
      if OffWriter(a) {
        OthersKeepAll(u, s, a);
      } else {
        hide Do, Line, FirstIds;
        WriterKeepsLine(u, s, a);
        SameNextId(u, s, a);
      }
    }
  }

  lemma SameNextId(u: Setup, s: State, a: Action)
    requires !OffWriter(a)
    ensures Do(u, s, a).nextId == s.nextId && Do(u, s, a) == WriterStep(u, s, a)
  {
  }

  lemma OthersKeepAll(u: Setup, s: State, a: Action)
    requires OffWriter(a) && !a.Crash? && Line(s) == FirstIds(s.nextId)
    ensures Line(Do(u, s, a)) == FirstIds(Do(u, s, a).nextId)
  {
    if a.Submit? && |s.queue| < u.queueBound {
      var s' := Do(u, s, a);
      assert JobIds(s'.queue) == JobIds(s.queue) + [s.nextId];
      assert Line(s') == Line(s) + [s.nextId];
      assert FirstIds(s.nextId + 1) == FirstIds(s.nextId) + [s.nextId];
    } else {
      OffWriterFrame(u, s, a);
    }
  }

  /** While the process lives, an answer, that of a barrier say, means that every job submitted before it has finished. */
  lemma BarrierWaitsForAll(u: Setup, actions: seq<Action>, a: Ack, id: nat)
    requires forall i :: 0 <= i < |actions| ==> !actions[i].Crash?
    requires a in RunActions(u, actions).acks && id <= a.id
    ensures id in Finished(RunActions(u, actions).history)
  {
    var s := RunActions(u, actions);
    AnsweredIsFinished(u, actions, a);
    FinishedAscends(u, actions);
    NothingIsLost(u, actions);
    LineSplits(s);
    if id !in Finished(s.history) {
      BelowFinished(s, a.id);
      assert FirstIds(s.nextId)[id] == id;
      NothingEarlierWaits(u, actions, a, id);
    }
  }

  lemma BelowFinished(s: State, id: nat)
    requires Ascends(Finished(s.history), s.nextId) && id in Finished(s.history)
    ensures id < s.nextId
  {
  }

  // ---- each answer is the job's own

  /** Job `j` of batch `i` has the id, and the reply is what the batch gave it there, or the error that failed the batch. */
  predicate OwnReply(u: Setup, history: seq<Entry>, i: int, j: int, id: nat, reply: Reply) {
    && 0 <= i < |history| && 0 <= j < |history[i].ids| == |history[i].batch.jobs| && history[i].ids[j] == id
    && reply == match history[i].batch.failure
                case Some(e) => Err(e)
                case None => Run(u.caps, After(u, history[..i]), history[i].batch.jobs).1[j]
  }

  ghost predicate HasOwnReply(u: Setup, history: seq<Entry>, a: Ack) {
    exists i, j :: OwnReply(u, history, i, j, a.id, a.reply)
  }

  lemma OwnReplyStays(u: Setup, history: seq<Entry>, e: Entry, a: Ack)
    requires HasOwnReply(u, history, a)
    ensures HasOwnReply(u, history + [e], a)
  {
    var i, j :| OwnReply(u, history, i, j, a.id, a.reply);
    assert (history + [e])[..i] == history[..i];
    assert OwnReply(u, history + [e], i, j, a.id, a.reply);
  }

  lemma AnswerIsOwn(u: Setup, s: State)
    requires Durable(u, s) && s.phase.Answering? && s.phase.next < |s.phase.jobs| && s.phase.next < |s.phase.replies|
    ensures HasOwnReply(u, s.history, Ack(s.phase.jobs[s.phase.next].id, s.phase.replies[s.phase.next]))
  {
    var n, next := |s.history| - 1, s.phase.next;
    assert s.history[n].ids[next] == s.phase.jobs[next].id;
    assert OwnReply(u, s.history, n, next, s.phase.jobs[next].id, s.phase.replies[next]);
  }

  lemma HistoryOnlyGrows(u: Setup, s: State, a: Action)
    ensures var h := Do(u, s, a).history; h == s.history || (|h| == |s.history| + 1 && h == s.history + [h[|s.history|]])
  {
  }

  lemma AcksOnlyGrow(u: Setup, s: State, a: Action)
    ensures var acks := Do(u, s, a).acks;
      || acks == s.acks
      || (a.Answer? && s.phase.Answering? && s.phase.next < |s.phase.jobs| && s.phase.next < |s.phase.replies|
          && acks == s.acks + [Ack(s.phase.jobs[s.phase.next].id, s.phase.replies[s.phase.next])])
  {
  }

  /** Over every run, each job that was answered, Ok or not, got the reply of its own batch and place in it. */
  lemma {:induction false} AnswersAreOwn(u: Setup, actions: seq<Action>)
    ensures forall a :: a in RunActions(u, actions).acks ==> HasOwnReply(u, RunActions(u, actions).history, a)
  {
    if actions != [] {
      var before, last := actions[..|actions| - 1], actions[|actions| - 1];
      var s, s' := RunActions(u, before), RunActions(u, actions);
      AnswersAreOwn(u, before);
      DurableAlways(u, before);
      HistoryOnlyGrows(u, s, last);
      AcksOnlyGrow(u, s, last);
      hide Do, RunActions, HasOwnReply;
      forall a | a in s'.acks ensures HasOwnReply(u, s'.history, a) {
        if a !in s.acks {
          AnswerIsOwn(u, s);
        }
        if s'.history != s.history {
          OwnReplyStays(u, s.history, s'.history[|s.history|], a);
        }
      }
      hide Durable;
    }
  }
}
