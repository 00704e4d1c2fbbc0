/** The order in which a request's state lands, and what is discarded for good, over whole runs. */
module StateFileOrder {
  import opened Prelude
  import opened AtomicNames
  import opened StateFiles

  /** A write of request `r` that may still land. */
  predicate Open(s: State, tk: Ticket, r: nat) {
    && tk in s.items && s.items[tk].request == Some(r)
    && (s.items[tk].stage.Writing? || s.items[tk].stage.Staged? || s.items[tk].stage.Landing?)
  }

  predicate Serves(s: State, t: nat, r: nat) {
    t in s.threads && s.threads[t].request.Some? && s.threads[t].request.value.id == r
  }

  /** A request has one thread, known by a number no other request ever has. */
  ghost predicate RequestsApart(s: State) {
    && (forall t: nat, r: nat :: Serves(s, t, r) ==> r < s.nextRequest)
    && (forall t, t', r :: Serves(s, t, r) && Serves(s, t', r) ==> t == t')
    && forall t :: t in s.threads ==> s.threads[t].pid in s.procs
  }

  ghost predicate ItemsOfRequest(s: State) {
    && (forall tk :: tk in s.items && s.items[tk].request.Some? ==> s.items[tk].request.value < s.nextRequest)
    && (forall tk, t :: tk in s.items && s.items[tk].request.Some? && Serves(s, t, s.items[tk].request.value) ==> s.items[tk].owner == t)
    && (forall tk, o :: tk in s.items && o in s.items && s.items[tk].request.Some? && s.items[o].request == s.items[tk].request ==>
          s.items[tk].owner == s.items[o].owner)
    && (forall tk :: tk in s.items && s.items[tk].stage.Direct? ==> s.items[tk].request == None)
  }

  /** While a thread's writes are landing it makes and holds no others. */
  ghost predicate LandingAlone(s: State) {
    forall tk, o :: tk in s.items && o in s.items && s.items[tk].owner == s.items[o].owner && s.items[tk].stage.Landing? ==>
      !s.items[o].stage.Writing? && !s.items[o].stage.Staged?
  }

  /** Everything of request `r` still to come is later than the write `tk`. */
  ghost predicate AllLater(s: State, tk: Ticket, r: nat) {
    && r < s.nextRequest
    && (forall o :: Open(s, o, r) ==> o.pid == tk.pid && tk.n < o.n)
    && forall t :: Serves(s, t, r) ==> s.threads[t].pid == tk.pid && tk.pid in s.procs && tk.n < s.procs[tk.pid]
  }

  ghost predicate TriesInOrder(s: State) {
    && (forall i :: 0 <= i < |s.tries| && s.tries[i].request.Some? ==> AllLater(s, s.tries[i].tk, s.tries[i].request.value))
    && forall i, j :: 0 <= i < j < |s.tries| && s.tries[i].request.Some? && s.tries[i].request == s.tries[j].request ==>
         s.tries[i].tk.pid == s.tries[j].tk.pid && s.tries[i].tk.n < s.tries[j].tk.n
  }

  ghost predicate Orderly(s: State) {
    RequestsApart(s) && ItemsOfRequest(s) && LandingAlone(s) && TriesInOrder(s)
  }

  // ---- steps that only take away, or move stages forward

  /** No write gains a stage from which it may land, no thread a request, no request a try. */
  ghost predicate Subsides(s: State, s': State) {
    && s'.nextRequest == s.nextRequest && s'.tries == s.tries
    && (forall tk :: tk in s'.items ==>
          && tk in s.items && s'.items[tk].owner == s.items[tk].owner && s'.items[tk].request == s.items[tk].request
          && (s'.items[tk].stage == s.items[tk].stage || s'.items[tk].stage.Dropping?
              || (s.items[tk].stage.Writing? && s'.items[tk].stage.Staged?)
              || (s.items[tk].stage.Writing? && s'.items[tk].stage.Direct? && s.items[tk].request.None?)))
    && (forall t, r :: Serves(s', t, r) ==> Serves(s, t, r))
    && (forall t :: t in s'.threads ==> t in s.threads && s'.threads[t].pid == s.threads[t].pid && s.threads[t].pid in s'.procs)
    && (forall pid :: pid in s.procs && pid in s'.procs ==> s'.procs[pid] >= s.procs[pid])
  }

  lemma SubsidingKeepsOrderly(s: State, s': State)
    requires Orderly(s) && Subsides(s, s')
    ensures Orderly(s')
  {
    SubsidingKeepsRequests(s, s');
    forall tk, r | AllLater(s, tk, r) ensures AllLater(s', tk, r) {
      SubsidingKeepsLater(s, s', tk, r);
    }
  }

  lemma SubsidingKeepsRequests(s: State, s': State)
    requires RequestsApart(s) && ItemsOfRequest(s) && LandingAlone(s) && Subsides(s, s')
    ensures RequestsApart(s') && ItemsOfRequest(s') && LandingAlone(s')
  {
  }

  lemma SubsidingKeepsLater(s: State, s': State, tk: Ticket, r: nat)
    requires RequestsApart(s) && AllLater(s, tk, r) && Subsides(s, s')
    ensures AllLater(s', tk, r)
  {
    forall o | Open(s', o, r) ensures Open(s, o, r) {
    }
    forall t | Serves(s', t, r) ensures s'.threads[t].pid == tk.pid && tk.pid in s'.procs && tk.n < s'.procs[tk.pid] {
      assert Serves(s, t, r);
    }
  }

  /** All but the steps that open a write, begin a request, let writes land or try one. */
  predicate Quiet(a: Action) {
    !a.StartThread? && !a.Begin? && !a.Open? && !a.Settle? && !a.Rename?
  }

  lemma QuietSubsides(files: map<string, string>, s: State, a: Action)
    requires Sound(files, s) && RequestsApart(s) && Quiet(a)
    ensures Subsides(s, Do(s, a))
  {
    hide Do, Subsides, Sound, RequestsApart;
    if a.End? {
      EndSubsides(files, s, a.t);
    } else if a.Discard? {
      DiscardSubsides(files, s, a.t, a.from);
    } else if a.Kill? || a.StartProcess? || a.SetHard? {
      ThreadsSubside(files, s, a);
    } else {
      WritingSubsides(s, a);
    }
  }

  lemma WritingSubsides(s: State, a: Action)
    requires RequestsApart(s) && (a.Fill? || a.Fail? || a.Finish? || a.Remove? || a.Sweep?)
    ensures Subsides(s, Do(s, a))
  {
    hide Tmp, IsTempName;
    if a.Fail? {
      FailSubsides(s, a.tk);
    } else if a.Finish? {
      FinishSubsides(s, a.tk);
    }
  }

  lemma FailSubsides(s: State, tk: Ticket)
    requires RequestsApart(s)
    ensures Subsides(s, Do(s, Fail(tk)))
  {
  }

  lemma FinishSubsides(s: State, tk: Ticket)
    requires RequestsApart(s)
    ensures Subsides(s, Do(s, Finish(tk)))
  {
  }

  lemma EndSubsides(files: map<string, string>, s: State, t: nat)
    requires Sound(files, s) && RequestsApart(s)
    ensures Subsides(s, Do(s, End(t)))
  {
    if Free(s, t) {
      DropSubsides(s, t, 0);
      hide Restage, Free, Sound;
    }
  }

  lemma DiscardSubsides(files: map<string, string>, s: State, t: nat, from: nat)
    requires Sound(files, s) && RequestsApart(s)
    ensures Subsides(s, Do(s, Discard(t, from)))
  {
    DropSubsides(s, t, from);
    hide Restage, Free, Sound;
  }

  lemma ThreadsSubside(files: map<string, string>, s: State, a: Action)
    requires Sound(files, s) && RequestsApart(s) && (a.Kill? || a.StartProcess? || a.SetHard?)
    ensures Subsides(s, Do(s, a))
  {
  }

  /** Staged writes dropped: of a mark, or of a reply not delivered in time. */
  lemma DropSubsides(s: State, t: nat, from: nat)
    requires RequestsApart(s)
    ensures Subsides(s, s.(items := Restage(s, t, from, Dropping)))
  {
  }

  // ---- the others

  /** Only more has been counted or started: nothing new serves a request or may land. */
  lemma SameLater(s: State, s': State, tk: Ticket, r: nat)
    requires AllLater(s, tk, r)
    requires s'.nextRequest >= s.nextRequest
    requires forall o :: Open(s', o, r) ==> Open(s, o, r)
    requires forall t :: Serves(s', t, r) ==> Serves(s, t, r) && s'.threads[t].pid == s.threads[t].pid
    requires forall pid :: pid in s.procs ==> pid in s'.procs && s'.procs[pid] >= s.procs[pid]
    ensures AllLater(s', tk, r)
  {
  }

  lemma StartKeepsOrderly(files: map<string, string>, s: State, t: nat, pid: nat)
    requires Sound(files, s) && Orderly(s)
    ensures Orderly(Do(s, StartThread(t, pid)))
  {
    var s' := Do(s, StartThread(t, pid));
    if s' != s {
      forall u, r ensures Serves(s', u, r) == Serves(s, u, r) {
      }
      forall tk, r | AllLater(s, tk, r) ensures AllLater(s', tk, r) {
        SameLater(s, s', tk, r);
      }
    }
  }

  /** What the thread staged before is dropped; then it serves a request of a new number. */
  lemma BeginKeepsOrderly(files: map<string, string>, s: State, t: nat, hard: nat)
    requires Sound(files, s) && Orderly(s)
    ensures Orderly(Do(s, Begin(t, hard)))
  {
    if Free(s, t) {
      var cut := s.(items := Restage(s, t, 0, Dropping));
      DropSubsides(s, t, 0);
      SubsidingKeepsOrderly(s, cut);
      NewRequestKeepsOrderly(cut, t, hard);
    }
  }

  lemma NewRequestKeepsOrderly(s: State, t: nat, hard: nat)
    requires Orderly(s) && t in s.threads
    ensures Orderly(s.(threads := s.threads[t := s.threads[t].(request := Some(Req(s.nextRequest, hard)))], nextRequest := s.nextRequest + 1))
  {
    var s' := s.(threads := s.threads[t := s.threads[t].(request := Some(Req(s.nextRequest, hard)))], nextRequest := s.nextRequest + 1);
    forall u: nat, r: nat ensures Serves(s', u, r) == if u == t then r == s.nextRequest else Serves(s, u, r) {
    }
    assert RequestsApart(s') && ItemsOfRequest(s');
    forall tk, r | AllLater(s, tk, r) ensures AllLater(s', tk, r) {
      assert forall o :: Open(s', o, r) ==> Open(s, o, r);
      SameLater(s, s', tk, r);
    }
  }

  /** The new write has the next counter of its process, above every one tried for the same request. */
  lemma OpenKeepsOrderly(files: map<string, string>, s: State, a: Action)
    requires Sound(files, s) && Orderly(s) && a.Open?
    ensures Orderly(Do(s, a))
  {
    var s' := Do(s, a);
    if s' != s {
      OpenKeepsItems(files, s, a);
      var th := s.threads[a.t];
      var tk := Ticket(th.pid, s.procs[th.pid]);
      assert s'.items == s.items[tk := s'.items[tk]];
      forall was, r | AllLater(s, was, r) ensures AllLater(s', was, r) {
        NewItemIsLater(s, s', a.t, tk, s'.items[tk], was, r);
      }
      hide ItemsOfRequest, LandingAlone, RequestsApart, Sound, AllLater;
    }
  }

  lemma NewItemIsLater(s: State, s': State, t: nat, tk: Ticket, i: Item, was: Ticket, r: nat)
    requires t in s.threads && s.threads[t].pid == tk.pid && tk.pid in s.procs && s.procs[tk.pid] == tk.n
    requires s'.threads == s.threads && s'.nextRequest == s.nextRequest && s'.procs == s.procs[tk.pid := tk.n + 1]
    requires s'.items == s.items[tk := i]
    requires i.request.Some? ==> Serves(s, t, i.request.value)
    requires AllLater(s, was, r)
    ensures AllLater(s', was, r)
  {
    forall o | Open(s', o, r) ensures o.pid == was.pid && was.n < o.n {
      assert Open(s, o, r) || (o == tk && Serves(s, t, r));
    }
    assert forall u :: Serves(s', u, r) == Serves(s, u, r);
  }

  lemma OpenKeepsItems(files: map<string, string>, s: State, a: Action)
    requires Sound(files, s) && Orderly(s) && a.Open? && Do(s, a) != s
    ensures RequestsApart(Do(s, a)) && ItemsOfRequest(Do(s, a)) && LandingAlone(Do(s, a))
  {
    var s', th := Do(s, a), s.threads[a.t];
    var tk := Ticket(th.pid, s.procs[th.pid]);
    assert s'.threads == s.threads && s'.nextRequest == s.nextRequest && s'.procs.Keys == s.procs.Keys;
    assert s'.items == s.items[tk := s'.items[tk]];
    NewItemKeepsItems(s, s', a.t, tk, s'.items[tk]);
  }

  lemma NewItemKeepsItems(s: State, s': State, t: nat, tk: Ticket, i: Item)
    requires RequestsApart(s) && ItemsOfRequest(s) && LandingAlone(s) && Free(s, t)
    requires s'.threads == s.threads && s'.nextRequest == s.nextRequest && s'.procs.Keys == s.procs.Keys
    requires s'.items == s.items[tk := i] && i.owner == t && i.stage.Writing?
    requires i.request.Some? ==> Serves(s, t, i.request.value)
    ensures RequestsApart(s') && ItemsOfRequest(s') && LandingAlone(s')
  {
    forall u: nat, q: nat ensures Serves(s', u, q) == Serves(s, u, q) {
    }
  }

  lemma ApproveKeepsOrderly(s: State, s': State, t: nat)
    requires Orderly(s) && Free(s, t)
    requires s' == s.(items := Restage(s, t, 0, Landing), approved := s'.approved, released := s'.released)
    ensures Orderly(s')
  {
    assert forall u, r :: Serves(s', u, r) == Serves(s, u, r);
    forall tk, r | AllLater(s, tk, r) ensures AllLater(s', tk, r) {
      assert forall o :: Open(s', o, r) ==> Open(s, o, r);
      SameLater(s, s', tk, r);
    }
  }

  /** All that the thread staged is now landing, and it holds nothing else. */
  lemma SettleKeepsOrderly(files: map<string, string>, s: State, a: Action)
    requires Sound(files, s) && Orderly(s) && a.Settle?
    ensures Orderly(Do(s, a))
  {
    if Free(s, a.t) && s.threads[a.t].request.Some? {
      var s' := Do(s, a);
      if a.delivered && a.now < s.threads[a.t].request.value.hard {
        ApproveKeepsOrderly(s, s', a.t);
      } else {
        DropSubsides(s, a.t, 0);
        SubsidingKeepsOrderly(s, s');
      }
    }
  }

  /** The write tried now is the first of its thread's, so everything else of its request is later. */
  lemma RenameKeepsOrderly(files: map<string, string>, s: State, tk: Ticket, worked: bool)
    requires Sound(files, s) && Orderly(s)
    ensures Orderly(Do(s, Rename(tk, worked)))
  {
    if Do(s, Rename(tk, worked)) != s {
      RenameSubsides(s, tk, worked);
      if s.items[tk].request.Some? {
        TriedIsFirst(files, s, tk, worked);
        assert Open(s, tk, s.items[tk].request.value);
      }
      RenamedIsOrderly(s, tk, worked);
    }
  }

  lemma RenamedIsOrderly(s: State, tk: Ticket, worked: bool)
    requires Orderly(s) && tk in s.items
    requires Subsides(s, Renamed(s, tk, worked).(tries := s.tries))
    requires var r := s.items[tk].request; r.Some? ==> Open(s, tk, r.value) && AllLater(Renamed(s, tk, worked), tk, r.value)
    ensures Orderly(Renamed(s, tk, worked))
  {
    hide Subsides, RequestsApart, ItemsOfRequest, LandingAlone;
    var s' := Renamed(s, tk, worked);
    var bare := s'.(tries := s.tries);
    SubsidingKeepsOrderly(s, bare);
    TryKeepsOrderly(bare, s', s'.tries[|s.tries|]);
  }

  lemma RenameSubsides(s: State, tk: Ticket, worked: bool)
    requires RequestsApart(s) && tk in s.items
    ensures Subsides(s, Renamed(s, tk, worked).(tries := s.tries))
  {
    hide Tmp;
  }

  lemma TryKeepsOrderly(s: State, s': State, e: Try)
    requires Orderly(s) && s' == s.(tries := s.tries + [e])
    requires e.request.Some? ==> AllLater(s', e.tk, e.request.value)
    requires forall i :: 0 <= i < |s.tries| && s.tries[i].request.Some? && s.tries[i].request == e.request ==>
      s.tries[i].tk.pid == e.tk.pid && s.tries[i].tk.n < e.tk.n
    ensures Orderly(s')
  {
    forall t, r ensures Serves(s', t, r) == Serves(s, t, r) {
    }
    forall was, r | AllLater(s, was, r) ensures AllLater(s', was, r) {
      assert forall o :: Open(s', o, r) == Open(s, o, r);
      SameLater(s, s', was, r);
    }
  }

  lemma TriedIsFirst(files: map<string, string>, s: State, tk: Ticket, worked: bool)
    requires Sound(files, s) && Orderly(s) && Do(s, Rename(tk, worked)) != s && s.items[tk].request.Some?
    ensures AllLater(Do(s, Rename(tk, worked)), tk, s.items[tk].request.value)
  {
    var s', r := Do(s, Rename(tk, worked)), s.items[tk].request.value;
    assert ItemSound(s, tk);
    forall o | Open(s', o, r) ensures o.pid == tk.pid && tk.n < o.n {
      assert ItemSound(s, o);
      assert s.items[o].owner == s.items[tk].owner;
      assert o.n == tk.n ==> o == tk;
    }
    forall t | Serves(s', t, r) ensures s'.threads[t].pid == tk.pid && tk.n < s'.procs[tk.pid] {
      assert Serves(s, t, r);
    }
  }

  lemma {:induction false} OrderlyAlways(files: map<string, string>, actions: seq<Action>)
    ensures Orderly(Run(files, actions))
  {
    if actions != [] {
      var before, a := actions[..|actions| - 1], actions[|actions| - 1];
      var s := Run(files, before);
      OrderlyAlways(files, before);
      StateFilesAreWhole(files, before);
      if Quiet(a) {
        QuietSubsides(files, s, a);
        SubsidingKeepsOrderly(s, Do(s, a));
      } else {
        match a
        case StartThread(t, pid) => StartKeepsOrderly(files, s, t, pid);
        case Begin(t, hard) => BeginKeepsOrderly(files, s, t, hard);
        case Open(_, _, _, _, _) => OpenKeepsOrderly(files, s, a);
        case Settle(_, _, _) => SettleKeepsOrderly(files, s, a);
        case Rename(tk, worked) => RenameKeepsOrderly(files, s, tk, worked);
      }
    }
  }

  /**
   At every moment of every run, kills included: the writes of a request are tried in the order they were made, each at most once, and
   every write of the request that may still land was made after all those tried so far.
   */
  lemma LandsInOrder(files: map<string, string>, actions: seq<Action>, r: nat)
    ensures var s := Run(files, actions);
      && (forall i, j :: 0 <= i < j < |s.tries| && s.tries[i].request == Some(r) && s.tries[j].request == Some(r) ==>
            s.tries[i].tk.pid == s.tries[j].tk.pid && s.tries[i].tk.n < s.tries[j].tk.n)
      && (forall i, tk :: 0 <= i < |s.tries| && s.tries[i].request == Some(r) && Open(s, tk, r) ==>
            s.tries[i].tk.pid == tk.pid && s.tries[i].tk.n < tk.n)
  {
    OrderlyAlways(files, actions);
  }

  // ---- none is passed over

  /** A step tries at most one rename, of a write that is complete and released. */
  lemma OneTryAStep(s: State, a: Action)
    ensures var s' := Do(s, a);
      || s'.tries == s.tries
      || (a.Rename? && a.tk in s.items && (s.items[a.tk].stage.Direct? || s.items[a.tk].stage.Landing?)
          && |s'.tries| == |s.tries| + 1 && s'.tries[..|s.tries|] == s.tries
          && s'.tries[|s.tries|].tk == a.tk && s'.tries[|s.tries|].request == s.items[a.tk].request)
  {
  }

  lemma LandingStays(s: State, a: Action, tk: Ticket)
    requires tk in s.items && ItemSound(s, tk) && s.items[tk].stage.Landing?
    requires a != Kill(tk.pid) && !(a.Rename? && a.tk == tk && Do(s, a) != s)
    ensures tk in Do(s, a).items && Do(s, a).items[tk] == s.items[tk]
  {
  }

  lemma RenameTries(s: State, tk: Ticket, worked: bool)
    requires Do(s, Rename(tk, worked)) != s
    ensures var s' := Do(s, Rename(tk, worked));
      tk in s.items && |s'.tries| == |s.tries| + 1 && s'.tries[|s.tries|].tk == tk && s'.tries[|s.tries|].request == s.items[tk].request
  {
  }

  /** The rename of the write `tk` of request `r` has been tried since there were `from` tries. */
  predicate TriedSince(s: State, from: nat, tk: Ticket, r: Option<nat>) {
    exists i :: from <= i < |s.tries| && s.tries[i].tk == tk && s.tries[i].request == r
  }

  lemma TriedStays(s: State, a: Action, from: nat, tk: Ticket, r: Option<nat>)
    requires TriedSince(s, from, tk, r)
    ensures TriedSince(Do(s, a), from, tk, r)
  {
    hide Do;
    OneTryAStep(s, a);
    var i :| from <= i < |s.tries| && s.tries[i].tk == tk && s.tries[i].request == r;
    assert Do(s, a).tries[i] == Do(s, a).tries[..|s.tries|][i];
  }

  /** The write still waits as it did, or has been tried. */
  predicate Accounted(s: State, from: nat, tk: Ticket, i: Item) {
    from <= |s.tries| && ((tk in s.items && s.items[tk] == i) || TriedSince(s, from, tk, i.request))
  }

  lemma StepKeepsAccounted(files: map<string, string>, s: State, a: Action, from: nat, tk: Ticket, i: Item)
    requires Sound(files, s) && Accounted(s, from, tk, i) && i.stage.Landing?
    requires a != Kill(tk.pid)
    ensures Accounted(Do(s, a), from, tk, i)
  {
    hide Do;
    OneTryAStep(s, a);
    if TriedSince(s, from, tk, i.request) {
      TriedStays(s, a, from, tk, i.request);
    } else if a.Rename? && a.tk == tk && Do(s, a) != s {
      RenameTries(s, tk, a.worked);
    } else {
      LandingStays(s, a, tk);
    }
  }

  lemma RunLast(files: map<string, string>, actions: seq<Action>)
    requires actions != []
    ensures Run(files, actions) == Do(Run(files, actions[..|actions| - 1]), actions[|actions| - 1])
  {
  }

  /** What a delivered reply let land is tried, or still waits for its turn, unless its process was killed. */
  lemma {:induction false} NoneIsPassedOver(files: map<string, string>, actions: seq<Action>, m: nat, tk: Ticket)
    requires m <= |actions| && tk in Run(files, actions[..m]).items && Run(files, actions[..m]).items[tk].stage.Landing?
    requires forall k :: m <= k < |actions| ==> actions[k] != Kill(tk.pid)
    ensures var was := Run(files, actions[..m]); Accounted(Run(files, actions), |was.tries|, tk, was.items[tk])
  {
    hide Do, Run, Sound;
    if m == |actions| {
      assert actions[..m] == actions;
    } else {
      var n := |actions| - 1;
      var before, was := Run(files, actions[..n]), Run(files, actions[..m]);
      assert actions[..n][..m] == actions[..m];
      NoneIsPassedOver(files, actions[..n], m, tk);
      StateFilesAreWhole(files, actions[..n]);
      RunLast(files, actions);
      StepKeepsAccounted(files, before, actions[n], |was.tries|, tk, was.items[tk]);
    }
  }

  // ---- a discarded write never lands

  /** No thread that serves the request, or no process for a write outside one, will give the name `tk` again. */
  ghost predicate Spent(s: State, tk: Ticket, r: Option<nat>) {
    match r
    case Some(id) =>
      id < s.nextRequest
      && forall t :: Serves(s, t, id) ==> s.threads[t].pid == tk.pid && tk.pid in s.procs && tk.n < s.procs[tk.pid]
    case None => tk.pid in s.procs && tk.n < s.procs[tk.pid]
  }

  /** The write `tk` made in `r` is gone or being removed, for good. */
  ghost predicate Discarded(s: State, tk: Ticket, r: Option<nat>) {
    Spent(s, tk, r) && (tk in s.items && s.items[tk].request == r ==> s.items[tk].stage.Dropping?)
  }

  lemma StepKeepsSpent(s: State, a: Action, tk: Ticket, r: Option<nat>)
    requires RequestsApart(s) && Spent(s, tk, r)
    requires r.Some? || a != Kill(tk.pid)
    ensures Spent(Do(s, a), tk, r)
  {
    var s' := Do(s, a);
    CountersGrow(s, a, tk.pid);
    if r.Some? {
      forall t | Serves(s', t, r.value)
        ensures s'.threads[t].pid == tk.pid && tk.pid in s'.procs && tk.n < s'.procs[tk.pid]
      {
        ServedBefore(s, a, t, r.value);
      }
    }
  }

  lemma CountersGrow(s: State, a: Action, pid: nat)
    ensures var s' := Do(s, a);
      && s.nextRequest <= s'.nextRequest
      && (pid in s.procs && a != Kill(pid) ==> pid in s'.procs && s.procs[pid] <= s'.procs[pid])
  {
  }

  lemma ServedBefore(s: State, a: Action, t: nat, r: nat)
    requires RequestsApart(s) && r < s.nextRequest && Serves(Do(s, a), t, r)
    ensures Serves(s, t, r) && Do(s, a).threads[t].pid == s.threads[t].pid && a != Kill(s.threads[t].pid)
  {
  }

  lemma DroppedOrElsewhere(files: map<string, string>, s: State, a: Action, tk: Ticket, r: Option<nat>)
    requires Sound(files, s) && RequestsApart(s) && Discarded(s, tk, r)
    requires tk in Do(s, a).items && Do(s, a).items[tk].request == r
    ensures Do(s, a).items[tk].stage.Dropping?
  {
    if tk in s.items {
      assert ItemSound(s, tk);
      RequestStays(s, a, tk);
    } else {
      NewWrite(s, a, tk);
      if r.Some? {
        assert Serves(s, a.t, r.value);
      }
    }
  }

  lemma RequestStays(s: State, a: Action, tk: Ticket)
    requires tk in s.items && ItemSound(s, tk) && tk in Do(s, a).items
    ensures Do(s, a).items[tk].request == s.items[tk].request
    ensures s.items[tk].stage.Dropping? ==> Do(s, a).items[tk].stage.Dropping?
  {
  }

  lemma NewWrite(s: State, a: Action, tk: Ticket)
    requires tk !in s.items && tk in Do(s, a).items
    ensures a.Open? && a.t in s.threads && s.threads[a.t].pid == tk.pid && tk.pid in s.procs && tk.n == s.procs[tk.pid]
    ensures Do(s, a).items[tk].request == (var r := s.threads[a.t].request; if r.None? then None else Some(r.value.id))
  {
  }

  lemma StepKeepsDiscarded(files: map<string, string>, s: State, a: Action, from: nat, tk: Ticket, r: Option<nat>)
    requires Sound(files, s) && Orderly(s) && Discarded(s, tk, r) && !TriedSince(s, from, tk, r) && from <= |s.tries|
    requires r.Some? || a != Kill(tk.pid)
    ensures Discarded(Do(s, a), tk, r) && !TriedSince(Do(s, a), from, tk, r) && from <= |Do(s, a).tries|
  {
    hide Do, Sound, RequestsApart, Spent;
    StepKeepsSpent(s, a, tk, r);
    OneTryAStep(s, a);
    var s' := Do(s, a);
    if tk in s'.items && s'.items[tk].request == r {
      DroppedOrElsewhere(files, s, a, tk, r);
    }
    forall i | from <= i < |s'.tries| ensures s'.tries[i].tk != tk || s'.tries[i].request != r {
      if i < |s.tries| {
        assert s'.tries[..|s.tries|][i] == s'.tries[i];
      }
    }
  }

  /**
   From the moment a write is marked for removal no rename of it is ever tried, whatever follows: for a write made in a request even if
   its process is killed and another takes its process id and counter, for one made outside until then.
   */
  lemma {:induction false} DiscardedNeverLands(files: map<string, string>, actions: seq<Action>, m: nat, tk: Ticket)
    requires m <= |actions| && tk in Run(files, actions[..m]).items && Run(files, actions[..m]).items[tk].stage.Dropping?
    requires Run(files, actions[..m]).items[tk].request.Some? || forall k :: m <= k < |actions| ==> actions[k] != Kill(tk.pid)
    ensures var (was, s) := (Run(files, actions[..m]), Run(files, actions));
      && |was.tries| <= |s.tries|
      && Discarded(s, tk, was.items[tk].request) && !TriedSince(s, |was.tries|, tk, was.items[tk].request)
  {
    hide Do, Run, Sound, Orderly, Discarded;
    var was := Run(files, actions[..m]);
    if m == |actions| {
      assert actions[..m] == actions;
      DroppingIsDiscarded(files, actions, tk);
    } else {
      var n := |actions| - 1;
      assert actions[..n][..m] == actions[..m];
      DiscardedNeverLands(files, actions[..n], m, tk);
      StateFilesAreWhole(files, actions[..n]);
      OrderlyAlways(files, actions[..n]);
      RunLast(files, actions);
      StepKeepsDiscarded(files, Run(files, actions[..n]), actions[n], |was.tries|, tk, was.items[tk].request);
    }
  }

  lemma DroppingIsDiscarded(files: map<string, string>, actions: seq<Action>, tk: Ticket)
    requires tk in Run(files, actions).items && Run(files, actions).items[tk].stage.Dropping?
    ensures var s := Run(files, actions); Discarded(s, tk, s.items[tk].request)
  {
    StateFilesAreWhole(files, actions);
    OrderlyAlways(files, actions);
    var s := Run(files, actions);
    assert ItemSound(s, tk);
  }
}
