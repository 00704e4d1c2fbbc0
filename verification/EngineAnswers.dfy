/** Nobody is forgotten: while the process lives the answers are exactly the finished jobs, in order. */
module EngineAnswers {
  import opened Prelude
  import opened HotTables
  import opened GroupCommit
  import opened Engine

  /** The finished jobs whose turn to be answered has come: all but those of the batch being published, or the rest of one being answered. */
  function Told(s: State): seq<nat> {
    match s.phase
    case Publishing(_, _, _, _) => Finished(Earlier(s.history))
    case Answering(jobs, _, next) => Finished(Earlier(s.history)) + JobIds(jobs)[..if next <= |jobs| then next else |jobs|]
    case _ => Finished(s.history)
  }

  function Earlier(history: seq<Entry>): seq<Entry> {
    if history == [] then [] else history[..|history| - 1]
  }

  /** The batch in its turn has a reply for each of its jobs, and none was passed over. */
  predicate Complete(s: State) {
    && AckIds(s.acks) == Told(s)
    && (s.phase.Answering? ==> s.phase.next <= |s.phase.jobs|)
  }

  lemma RepliesForAll(u: Setup, s: State)
    requires Durable(u, s) && (s.phase.Publishing? || s.phase.Answering?)
    ensures |s.phase.replies| == |s.phase.jobs| && s.history != []
    ensures Finished(s.history) == Finished(Earlier(s.history)) + JobIds(s.phase.jobs)
  {
  }

  /** One more of a batch told, or all of it. */
  lemma TellOne(early: seq<nat>, ids: seq<nat>, acks: seq<Ack>, ack: Ack, next: nat)
    requires next < |ids| && AckIds(acks) == early + ids[..next] && ack.id == ids[next]
    ensures AckIds(acks + [ack]) == early + ids[..next + 1]
  {
    assert AckIds(acks + [ack]) == AckIds(acks) + [ids[next]];
    assert ids[..next + 1] == ids[..next] + [ids[next]];
  }

  lemma AnswerKeepsComplete(u: Setup, s: State)
    requires Durable(u, s) && Complete(s) && s.phase.Answering?
    ensures Complete(Do(u, s, Answer))
  {
    var jobs, next := s.phase.jobs, s.phase.next;
    var early, ids := Finished(Earlier(s.history)), JobIds(jobs);
    RepliesForAll(u, s);
    hide Durable, Finished, AckIds;
    if next < |jobs| {
      TellOne(early, ids, s.acks, Ack(jobs[next].id, s.phase.replies[next]), next);
    } else {
      assert ids[..next] == ids;
    }
  }

  lemma FinishKeepsComplete(u: Setup, s: State, a: Action)
    requires Complete(s) && s.phase.Applying? && (a.Commit? || a.Abort?)
    ensures Complete(WriterStep(u, s, a))
  {
    var s' := WriterStep(u, s, a);
    if s' != s {
      assert Earlier(s'.history) == s.history;
    }
  }

  lemma PublishKeepsComplete(u: Setup, s: State, a: Action)
    requires Complete(s) && s.phase.Publishing? && a.PublishStep?
    ensures Complete(WriterStep(u, s, a))
  {
  }

  lemma WriterKeepsComplete(u: Setup, s: State, a: Action)
    requires Durable(u, s) && Complete(s) && !OffWriter(a)
    ensures Complete(Do(u, s, a))
  {
    SameNextId(u, s, a);
    if s.phase.Answering? && a.Answer? {
      AnswerKeepsComplete(u, s);
    } else if s.phase.Publishing? && a.PublishStep? {
      PublishKeepsComplete(u, s, a);
    } else if s.phase.Applying? && (a.Commit? || a.Abort?) {
      FinishKeepsComplete(u, s, a);
    }
  }

  /**
   While the process lives every finished job is answered in its turn, none passed over: the answers are exactly the jobs of the finished
   batches, in order, less those of the batch whose turn it is that are still to come.
   */
  lemma {:induction false} AllAreAnswered(u: Setup, actions: seq<Action>)
    requires forall i :: 0 <= i < |actions| ==> !actions[i].Crash?
    ensures Complete(RunActions(u, actions))
  {
    if actions != [] {
      var before, last := actions[..|actions| - 1], actions[|actions| - 1];
      var s := RunActions(u, before);
      AllAreAnswered(u, before);
      DurableAlways(u, before);
      if OffWriter(last) {
        OffWriterFrame(u, s, last);
      } else {
        hide Complete, Durable, Do;
        WriterKeepsComplete(u, s, last);
      }
    }
  }

  /** So whenever the writer is idle, and the process has not crashed, nobody who was written is still waiting for an answer. */
  lemma IdleOwesNothing(u: Setup, actions: seq<Action>)
    requires forall i :: 0 <= i < |actions| ==> !actions[i].Crash?
    requires RunActions(u, actions).phase.Idle? && RunActions(u, actions).queue == []
    ensures AckIds(RunActions(u, actions).acks) == FirstIds(RunActions(u, actions).nextId)
  {
    AllAreAnswered(u, actions);
    NothingIsLost(u, actions);
    LineSplits(RunActions(u, actions));
  }
}
