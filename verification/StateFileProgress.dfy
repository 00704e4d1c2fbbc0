/** What the writes of state files come to when nothing gets in their way: a write lands whole, and a reply in time lands all its writes. */
module StateFileProgress {
  import opened Prelude
  import opened AtomicNames
  import opened StateFiles

  /** What a further run of actions leads to. */
  function RunFrom(s: State, actions: seq<Action>): State
    decreases |actions|
  {
    if actions == [] then s else RunFrom(Do(s, actions[0]), actions[1..])
  }

  /** The next write of a thread. */
  function NextTicket(s: State, t: nat): Ticket
    requires t in s.threads && s.threads[t].pid in s.procs
  {
    Ticket(s.threads[t].pid, s.procs[s.threads[t].pid])
  }

  /** The thread may write, and its process has not used up its tickets out of order. */
  predicate MayWrite(s: State, t: nat, path: string) {
    && Free(s, t) && s.threads[t].pid in s.procs && !IsTempName(path)
    && forall tk :: tk in s.items ==> tk.pid in s.procs && tk.n < s.procs[tk.pid]
  }

  lemma SoundMayWrite(files: map<string, string>, s: State, t: nat, path: string)
    requires Sound(files, s) && Free(s, t) && s.threads[t].pid in s.procs && !IsTempName(path)
    ensures MayWrite(s, t, path)
  {
    forall tk | tk in s.items ensures tk.pid in s.procs && tk.n < s.procs[tk.pid] {
      assert ItemSound(s, tk);
    }
  }

  lemma One(s: State, a: Action)
    ensures RunFrom(s, [a]) == Do(s, a)
  {
    assert [a][1..] == [];
  }

  lemma {:induction false} RunFromJoins(s: State, a: seq<Action>, b: seq<Action>)
    ensures RunFrom(s, a + b) == RunFrom(RunFrom(s, a), b)
    decreases |a|
  {
    if a == [] {
      assert a + b == b;
    } else {
      assert (a + b)[1..] == a[1..] + b;
      RunFromJoins(Do(s, a[0]), a[1..], b);
    }
  }

  lemma Then(s: State, before: seq<Action>, a: Action)
    ensures RunFrom(s, before + [a]) == Do(RunFrom(s, before), a)
  {
    RunFromJoins(s, before, [a]);
    One(RunFrom(s, before), a);
  }

  /** What a write is, apart from its ticket and how far it is. */
  datatype Plan = Plan(t: nat, path: string, payload: string, keepJson: bool, leave: bool)

  function RequestOf(s: State, t: nat): Option<nat>
    requires t in s.threads
  {
    if s.threads[t].request.None? then None else Some(s.threads[t].request.value.id)
  }

  function Begun(s: State, w: Plan): Item
    requires w.t in s.threads
  {
    Item(w.t, w.path, w.payload, 0, Writing, RequestOf(s, w.t), w.keepJson, w.leave)
  }

  /** The tables with the write in them, as far as it is, and this much in its temporary file. */
  function With(s: State, w: Plan, i: Item, text: string): State
    requires w.t in s.threads && s.threads[w.t].pid in s.procs
  {
    var tk := NextTicket(s, w.t);
    s.(fs := s.fs[TmpPath(w.path, w.keepJson, tk.pid, tk.n) := text], procs := s.procs[tk.pid := tk.n + 1], items := s.items[tk := i])
  }

  lemma OpenIs(s: State, w: Plan)
    requires MayWrite(s, w.t, w.path)
    ensures Do(s, Open(w.t, w.path, w.payload, w.keepJson, w.leave)) == With(s, w, Begun(s, w), "")
  {
  }

  lemma FillIs(s: State, w: Plan, from: nat, bytes: nat)
    requires MayWrite(s, w.t, w.path) && from + bytes <= |w.payload|
    ensures Do(With(s, w, Begun(s, w).(written := from), w.payload[..from]), Fill(NextTicket(s, w.t), bytes))
      == With(s, w, Begun(s, w).(written := from + bytes), w.payload[..from + bytes])
  {
    var tk := NextTicket(s, w.t);
    var tmp := TmpPath(w.path, w.keepJson, tk.pid, tk.n);
    var i, text := Begun(s, w).(written := from + bytes), w.payload[..from + bytes];
    var s1 := With(s, w, Begun(s, w).(written := from), w.payload[..from]);
    assert w.payload[..from] + w.payload[from..from + bytes] == text;
    assert s1.fs[tmp := text] == s.fs[tmp := text];
    assert s1.items[tk := i] == s.items[tk := i];
    hide TmpPath;
  }

  /** A complete write: to be renamed at once outside a request, staged inside one. */
  function Complete(s: State, w: Plan): Item
    requires w.t in s.threads
  {
    Item(w.t, w.path, w.payload, |w.payload|, if s.threads[w.t].request.None? then Direct else Staged, RequestOf(s, w.t), w.keepJson, w.leave)
  }

  lemma FinishIs(s: State, w: Plan)
    requires MayWrite(s, w.t, w.path)
    ensures var s' := Do(With(s, w, Begun(s, w).(written := |w.payload|), w.payload), Finish(NextTicket(s, w.t)));
      s' == With(s, w, Complete(s, w), w.payload).(released := s'.released)
  {
    var tk := NextTicket(s, w.t);
    var s1 := With(s, w, Begun(s, w).(written := |w.payload|), w.payload);
    assert s1.items[tk := Complete(s, w)] == s.items[tk := Complete(s, w)];
    hide TmpPath;
  }

  /** A write begun, filled in two pieces and finished. */
  function WriteOf(tk: Ticket, w: Plan, first: nat): seq<Action>
    requires first <= |w.payload|
  {
    [Open(w.t, w.path, w.payload, w.keepJson, w.leave), Fill(tk, first), Fill(tk, |w.payload| - first), Finish(tk)]
  }

  /** A write that is made stands whole in its temporary file, in however many pieces it was filled. */
  lemma WriteIsMade(s: State, w: Plan, first: nat)
    requires MayWrite(s, w.t, w.path) && first <= |w.payload|
    ensures var s' := RunFrom(s, WriteOf(NextTicket(s, w.t), w, first));
      s' == With(s, w, Complete(s, w), w.payload).(released := s'.released)
  {
    var tk := NextTicket(s, w.t);
    var acts := WriteOf(tk, w, first);
    hide *;
    Pieces(s, w, first);
    One(s, acts[0]);
    OpenIs(s, w);
    Then(s, acts[..1], acts[1]);
    FillIs(s, w, 0, first);
    Then(s, acts[..2], acts[2]);
    FillIs(s, w, first, |w.payload| - first);
    Then(s, acts[..3], acts[3]);
    FinishIs(s, w);
  }

  lemma Pieces(s: State, w: Plan, first: nat)
    requires w.t in s.threads && s.threads[w.t].pid in s.procs && first <= |w.payload|
    ensures var tk, n := NextTicket(s, w.t), |w.payload|;
      var acts := WriteOf(tk, w, first);
      && |acts| == 4
      && acts[..1] == [acts[0]] && acts[..2] == acts[..1] + [acts[1]] && acts[..3] == acts[..2] + [acts[2]] && acts == acts[..3] + [acts[3]]
      && acts[0] == Open(w.t, w.path, w.payload, w.keepJson, w.leave) && acts[1] == Fill(tk, first) && acts[2] == Fill(tk, n - first)
      && acts[3] == Finish(tk)
    ensures w.payload[..0] == "" && w.payload[..|w.payload|] == w.payload && Begun(s, w).(written := 0) == Begun(s, w)
  {
  }

  /** The target stands as written, the temporary file is gone, no other file was touched and the write is over. */
  predicate Landed(s: State, s': State, tk: Ticket, w: Plan, request: Option<nat>) {
    && s'.fs == (s.fs - {TmpPath(w.path, w.keepJson, tk.pid, tk.n)})[w.path := w.payload]
    && s'.items == s.items - {tk}
    && s'.tries == s.tries + [Try(tk, request, true)]
  }

  lemma RenameLands(s: State, w: Plan, s1: State, stage: Stage)
    requires MayWrite(s, w.t, w.path) && stage in {Direct, Landing}
    requires stage.Landing? ==> forall tk :: tk in s.items ==> s.items[tk].owner != w.t
    requires s1 == With(s, w, Complete(s, w).(stage := stage), w.payload).(released := s1.released, approved := s1.approved)
    ensures Landed(s, Do(s1, Rename(NextTicket(s, w.t), true)), NextTicket(s, w.t), w, RequestOf(s, w.t))
  {
    var tk := NextTicket(s, w.t);
    var tmp := TmpPath(w.path, w.keepJson, tk.pid, tk.n);
    assert s1.fs - {tmp} == s.fs - {tmp};
    assert s1.items - {tk} == s.items - {tk};
    hide TmpPath;
  }

  /** Outside a request a write that nothing hinders replaces its target at once. */
  lemma WriteLands(s: State, w: Plan, first: nat)
    requires MayWrite(s, w.t, w.path) && s.threads[w.t].request.None? && first <= |w.payload|
    ensures var tk := NextTicket(s, w.t);
      Landed(s, RunFrom(s, WriteOf(tk, w, first) + [Rename(tk, true)]), tk, w, None)
  {
    var tk := NextTicket(s, w.t);
    var write := WriteOf(tk, w, first);
    WriteIsMade(s, w, first);
    Then(s, write, Rename(tk, true));
    hide Do, MayWrite, With, RunFrom, Landed;
    RenameLands(s, w, RunFrom(s, write), Direct);
  }

  lemma SettleIs(s: State, w: Plan, s1: State, delivered: bool, now: nat)
    requires MayWrite(s, w.t, w.path) && s.threads[w.t].request.Some?
    requires forall tk :: tk in s.items ==> s.items[tk].owner != w.t
    requires s1 == With(s, w, Complete(s, w), w.payload).(released := s1.released)
    ensures var s2 := Do(s1, Settle(w.t, delivered, now));
      var stage := if delivered && now < s.threads[w.t].request.value.hard then Landing else Dropping;
      && s2 == With(s, w, Complete(s, w).(stage := stage), w.payload).(released := s2.released, approved := s2.approved)
      && (stage.Dropping? ==> s2.released == s1.released && s2.approved == s1.approved)
  {
    var tk := NextTicket(s, w.t);
    var stage := if delivered && now < s.threads[w.t].request.value.hard then Landing else Dropping;
    assert Restage(s1, w.t, 0, stage) == s.items[tk := Complete(s, w).(stage := stage)];
    hide TmpPath;
  }

  /** Inside a request it replaces its target when the reply was delivered before the hard deadline, at the rename that follows. */
  lemma StagedWriteLands(s: State, w: Plan, first: nat, now: nat)
    requires MayWrite(s, w.t, w.path) && s.threads[w.t].request.Some? && now < s.threads[w.t].request.value.hard && first <= |w.payload|
    requires forall tk :: tk in s.items ==> s.items[tk].owner != w.t
    ensures var tk := NextTicket(s, w.t);
      var actions := WriteOf(tk, w, first) + [Settle(w.t, true, now)] + [Rename(tk, true)];
      Landed(s, RunFrom(s, actions), tk, w, Some(s.threads[w.t].request.value.id))
  {
    var tk := NextTicket(s, w.t);
    var write, settle := WriteOf(tk, w, first), Settle(w.t, true, now);
    WriteIsMade(s, w, first);
    Then(s, write, settle);
    Then(s, write + [settle], Rename(tk, true));
    hide Do, MayWrite, With, RunFrom, Landed;
    SettleIs(s, w, RunFrom(s, write), true, now);
    RenameLands(s, w, RunFrom(s, write + [settle]), Landing);
  }

  lemma RemoveIs(s: State, w: Plan, s1: State)
    requires MayWrite(s, w.t, w.path)
    requires TmpPath(w.path, w.keepJson, NextTicket(s, w.t).pid, NextTicket(s, w.t).n) !in s.fs
    requires s1 == With(s, w, Complete(s, w).(stage := Dropping), w.payload).(released := s1.released, approved := s1.approved)
    ensures var tk := NextTicket(s, w.t);
      var s2 := Do(s1, Remove(tk, true));
      && s2.fs == s.fs && s2.items == s.items && s2.tries == s.tries && s2.threads == s.threads
      && s2.procs == s.procs[tk.pid := tk.n + 1] && s2.released == s1.released && s2.approved == s1.approved
  {
    var tk := NextTicket(s, w.t);
    var tmp := TmpPath(w.path, w.keepJson, tk.pid, tk.n);
    assert s1.fs - {tmp} == s.fs;
    assert s1.items - {tk} == s.items;
    hide TmpPath;
  }

  /** When the reply was not delivered, or too late, the write leaves no trace but its used ticket. */
  lemma LateWriteLeavesNoTrace(s: State, w: Plan, first: nat, delivered: bool, now: nat)
    requires MayWrite(s, w.t, w.path) && s.threads[w.t].request.Some? && first <= |w.payload|
    requires !delivered || now >= s.threads[w.t].request.value.hard
    requires TmpPath(w.path, w.keepJson, NextTicket(s, w.t).pid, NextTicket(s, w.t).n) !in s.fs
    requires forall tk :: tk in s.items ==> s.items[tk].owner != w.t
    ensures var tk := NextTicket(s, w.t);
      var s' := RunFrom(s, WriteOf(tk, w, first) + [Settle(w.t, delivered, now)] + [Remove(tk, true)]);
      && s'.fs == s.fs && s'.items == s.items && s'.tries == s.tries && s'.threads == s.threads
      && s'.procs == s.procs[tk.pid := tk.n + 1]
  {
    var tk := NextTicket(s, w.t);
    var write, settle := WriteOf(tk, w, first), Settle(w.t, delivered, now);
    WriteIsMade(s, w, first);
    Then(s, write, settle);
    Then(s, write + [settle], Remove(tk, true));
    hide Do, MayWrite, With, RunFrom;
    SettleIs(s, w, RunFrom(s, write), delivered, now);
    RemoveIs(s, w, RunFrom(s, write + [settle]));
  }

  /** Of the writes of a thread that a reply released, the one begun first may be renamed. */
  lemma OneMayLand(s: State, t: nat, tk: Ticket) returns (first: Ticket)
    requires tk in s.items && s.items[tk].owner == t && s.items[tk].stage.Landing?
    ensures first in s.items && s.items[first].owner == t && s.items[first].stage.Landing? && FirstToLand(s, first)
    decreases tk.n
  {
    if FirstToLand(s, tk) {
      first := tk;
    } else {
      var o :| o in s.items && s.items[o].owner == t && s.items[o].stage.Landing? && o.n < tk.n;
      first := OneMayLand(s, t, o);
    }
  }

  /** A rename that is tried is told as it went: worked just when the temporary file stood and the rename did, and then the target is it. */
  lemma RenameIsTold(files: map<string, string>, s: State, tk: Ticket, worked: bool)
    requires Sound(files, s) && tk in s.items
    requires s.items[tk].stage.Direct? || (s.items[tk].stage.Landing? && FirstToLand(s, tk))
    ensures var i := s.items[tk];
      var s' := Do(s, Rename(tk, worked));
      var went := worked && Tmp(tk, i) in s.fs;
      && s'.tries == s.tries + [Try(tk, i.request, went)]
      && s'.fs == (if went then (s.fs - {Tmp(tk, i)})[i.path := i.payload] else s.fs)
      && (tk in s'.items <==> !went && !i.leave)
      && (tk in s'.items ==> s'.items[tk].stage.Dropping?)
  {
    assert ItemSound(s, tk);
    assert s.items[tk].payload[..|s.items[tk].payload|] == s.items[tk].payload;
  }
}
