/** State written during a request lands only if the reply was delivered in time. */
module StateFiles {
  import opened Prelude
  import opened AtomicNames

  // Any number of processes and threads write at once over one file system; every action is one file operation or one thread-local
  // change, any file operation may fail, a process may be killed between any two, and stray temporary files may be swept. A run is any
  // sequence of actions; an impossible one changes nothing.

  /** A write's identity: its process and the process's counter. Later writes of a process have larger counters. */
  datatype Ticket = Ticket(pid: nat, n: nat)

  datatype Stage =
    | Writing        // the temporary file is being filled
    | Direct         // complete, outside a request: to be renamed at once
    | Staged         // complete, inside a request: waiting for the reply
    | Landing        // the reply was delivered in time: to be renamed in order
    | Dropping       // to be removed

  datatype Item = Item(owner: nat, path: string, payload: string, written: nat, stage: Stage, request: Option<nat>, keepJson: bool, leave: bool)

  /** A request served by a thread: when it is cut, which the request may move. */
  datatype Req = Req(id: nat, hard: nat)

  datatype Thread = Thread(pid: nat, request: Option<Req>)

  /** A payload that may be found at a path, and the request whose reply released it (none for a write outside one). */
  datatype Release = Release(path: string, payload: string, request: Option<nat>)

  /** A tried rename: the write, the request whose reply released it, and whether its payload stands at its path. */
  datatype Try = Try(tk: Ticket, request: Option<nat>, worked: bool)

  datatype State = State(
    fs: map<string, string>,
    procs: map<nat, nat>,
    threads: map<nat, Thread>,
    items: map<Ticket, Item>,
    nextRequest: nat,
    approved: set<nat>,
    released: set<Release>,
    tries: seq<Try>)

  datatype Action =
    | StartProcess(pid: nat)
    | StartThread(t: nat, pid: nat)
    | Kill(pid: nat)
    | Begin(t: nat, hard: nat)
    | SetHard(t: nat, hard: nat)
    | Open(t: nat, path: string, payload: string, keepJson: bool, leave: bool)
    | Fill(tk: Ticket, bytes: nat)
    | Fail(tk: Ticket)
    | Finish(tk: Ticket)
    | Rename(tk: Ticket, worked: bool)
    | Remove(tk: Ticket, worked: bool)
    | Discard(t: nat, from: nat)
    | Settle(t: nat, delivered: bool, now: nat)
    | End(t: nat)
    | Sweep(path: string)

  function Tmp(tk: Ticket, i: Item): string {
    TmpPath(i.path, i.keepJson, tk.pid, tk.n)
  }

  function Init(files: map<string, string>): State {
    State(files, map[], map[], map[], 0, {}, {}, [])
  }

  /** The thread has no write under way: only staged ones, if any. */
  predicate Free(s: State, t: nat) {
    t in s.threads && forall tk :: tk in s.items && s.items[tk].owner == t ==> s.items[tk].stage.Staged?
  }

  /** The thread's oldest write still to land. */
  predicate FirstToLand(s: State, tk: Ticket) {
    tk in s.items && forall o :: o in s.items && s.items[o].owner == s.items[tk].owner && s.items[o].stage.Landing? ==> tk.n <= o.n
  }

  /** Every staged write of `t` with a counter of `from` or more moves to a stage. */
  function Restage(s: State, t: nat, from: nat, to: Stage): map<Ticket, Item> {
    map tk | tk in s.items ::
      if s.items[tk].owner == t && s.items[tk].stage.Staged? && tk.n >= from then s.items[tk].(stage := to) else s.items[tk]
  }

  /** What a delivered reply releases. */
  function ReleasedBy(s: State, t: nat): set<Release> {
    set tk | tk in s.items && s.items[tk].owner == t && s.items[tk].stage.Staged? ::
      Release(s.items[tk].path, s.items[tk].payload, s.items[tk].request)
  }

  function Without(s: State, tk: Ticket): map<Ticket, Item> {
    s.items - {tk}
  }

  /** `rename` over the target; with a failure the temporary file is removed, unless the style leaves it. */
  function Renamed(s: State, tk: Ticket, worked: bool): State
    requires tk in s.items
  {
    var i := s.items[tk];
    var tmp := Tmp(tk, i);
    var tries := s.tries + [Try(tk, i.request, worked && tmp in s.fs)];
    if worked && tmp in s.fs then s.(fs := (s.fs - {tmp})[i.path := s.fs[tmp]], items := Without(s, tk), tries := tries)
    else if i.leave then s.(items := Without(s, tk), tries := tries)
    else s.(items := s.items[tk := i.(stage := Dropping)], tries := tries)
  }

  function Do(s: State, a: Action): State {
    match a
    case StartProcess(pid) =>
      if pid !in s.procs then s.(procs := s.procs[pid := 0]) else s
    case StartThread(t, pid) =>
      if t !in s.threads && pid in s.procs then s.(threads := s.threads[t := Thread(pid, None)]) else s
    case Kill(pid) =>
      s.(procs := s.procs - {pid},
         threads := map t | t in s.threads && s.threads[t].pid != pid :: s.threads[t],
         items := map tk | tk in s.items && tk.pid != pid :: s.items[tk])
    case Begin(t, hard) =>
      if Free(s, t) then
        s.(items := Restage(s, t, 0, Dropping),
           threads := s.threads[t := s.threads[t].(request := Some(Req(s.nextRequest, hard)))],
           nextRequest := s.nextRequest + 1)
      else s
    case SetHard(t, hard) =>
      if t in s.threads && s.threads[t].request.Some? then
        var req := s.threads[t].request.value;
        s.(threads := s.threads[t := s.threads[t].(request := Some(req.(hard := hard)))])
      else s
    case Open(t, path, payload, keepJson, leave) =>
      if Free(s, t) && s.threads[t].pid in s.procs && !IsTempName(path) then
        var th := s.threads[t];
        var tk := Ticket(th.pid, s.procs[th.pid]);
        var i := Item(t, path, payload, 0, Writing, if th.request.None? then None else Some(th.request.value.id), keepJson, leave);
        s.(fs := s.fs[Tmp(tk, i) := ""], procs := s.procs[th.pid := tk.n + 1], items := s.items[tk := i])
      else s
    case Fill(tk, bytes) =>
      if tk in s.items && s.items[tk].stage.Writing? && Tmp(tk, s.items[tk]) in s.fs
         && s.items[tk].written + bytes <= |s.items[tk].payload| then
        var i := s.items[tk];
        var more := i.payload[i.written..i.written + bytes];
        s.(fs := s.fs[Tmp(tk, i) := s.fs[Tmp(tk, i)] + more], items := s.items[tk := i.(written := i.written + bytes)])
      else s
    case Fail(tk) =>
      if tk in s.items && s.items[tk].stage.Writing? then s.(items := s.items[tk := s.items[tk].(stage := Dropping)]) else s
    case Finish(tk) =>
      if tk in s.items && s.items[tk].stage.Writing? && s.items[tk].written == |s.items[tk].payload| then
        var i := s.items[tk];
        if i.request.Some? then s.(items := s.items[tk := i.(stage := Staged)])
        else s.(items := s.items[tk := i.(stage := Direct)], released := s.released + {Release(i.path, i.payload, None)})
      else s
    case Rename(tk, worked) =>
      if tk in s.items && (s.items[tk].stage.Direct? || (s.items[tk].stage.Landing? && FirstToLand(s, tk)))
      then Renamed(s, tk, worked)
      else s
    case Remove(tk, worked) =>
      if tk in s.items && s.items[tk].stage.Dropping?
      then s.(fs := if worked then s.fs - {Tmp(tk, s.items[tk])} else s.fs, items := Without(s, tk))
      else s
    case Discard(t, from) =>
      if Free(s, t) then s.(items := Restage(s, t, from, Dropping)) else s
    case Settle(t, delivered, now) =>
      if Free(s, t) && s.threads[t].request.Some? then
        var req := s.threads[t].request.value;
        if delivered && now < req.hard
        then s.(items := Restage(s, t, 0, Landing), approved := s.approved + {req.id}, released := s.released + ReleasedBy(s, t))
        else s.(items := Restage(s, t, 0, Dropping))
      else s
    case End(t) =>
      if Free(s, t) then
        s.(items := Restage(s, t, 0, Dropping), threads := s.threads[t := s.threads[t].(request := None)])
      else s
    case Sweep(path) =>
      if IsTempName(path) then s.(fs := s.fs - {path}) else s
  }

  function Run(files: map<string, string>, actions: seq<Action>): State {
    if actions == [] then Init(files) else
      Do(Run(files, actions[..|actions| - 1]), actions[|actions| - 1])
  }

  // ---- a state file holds a complete, released payload

  predicate ItemSound(s: State, tk: Ticket)
    requires tk in s.items
  {
    var i := s.items[tk];
    && tk.pid in s.procs && tk.n < s.procs[tk.pid]
    && i.owner in s.threads && s.threads[i.owner].pid == tk.pid
    && !IsTempName(i.path)
    && i.written <= |i.payload|
    && (i.stage.Direct? || i.stage.Staged? || i.stage.Landing? ==> i.written == |i.payload|)
    && (Tmp(tk, i) in s.fs ==> s.fs[Tmp(tk, i)] == i.payload[..i.written])
    && (i.stage.Direct? || i.stage.Landing? ==> Release(i.path, i.payload, i.request) in s.released)
    && (i.stage.Staged? ==> i.request.Some? && s.threads[i.owner].request.Some? && i.request.value == s.threads[i.owner].request.value.id)
    && (i.stage.Writing? && i.request.Some? ==>
          s.threads[i.owner].request.Some? && i.request.value == s.threads[i.owner].request.value.id)
  }

  /** What stands at a path is what stood there at the start, or a payload released for that path. */
  predicate TargetSound(files: map<string, string>, s: State, p: string) {
    p in s.fs && !IsTempName(p) ==>
      (p in files && files[p] == s.fs[p]) || exists r :: r in s.released && r.path == p && r.payload == s.fs[p]
  }

  ghost predicate Sound(files: map<string, string>, s: State) {
    && (forall tk :: tk in s.items ==> ItemSound(s, tk))
    && (forall p :: TargetSound(files, s, p))
    && (forall r :: r in s.released && r.request.Some? ==> r.request.value in s.approved)
  }

  lemma TmpsDiffer(tk: Ticket, i: Item, tk': Ticket, i': Item)
    requires tk != tk'
    ensures Tmp(tk, i) != Tmp(tk', i')
    ensures IsTempName(Tmp(tk, i))
  {
    TmpPathIsTemp(i.path, i.keepJson, tk.pid, tk.n);
    if Tmp(tk, i) == Tmp(tk', i') {
      TmpPathsDiffer(i.path, i.keepJson, tk.pid, tk.n, i'.path, i'.keepJson, tk'.pid, tk'.n);
    }
  }

  /** A change of one temporary file leaves every other write and every target alone. */
  lemma OneTmpChanged(files: map<string, string>, s: State, s': State, tk: Ticket, i: Item)
    requires Sound(files, s)
    requires forall p :: p != Tmp(tk, i) ==> (p in s'.fs <==> p in s.fs) && (p in s.fs ==> s'.fs[p] == s.fs[p])
    requires s'.released == s.released && s'.approved == s.approved && s'.threads == s.threads
    requires s'.procs.Keys == s.procs.Keys && forall pid :: pid in s.procs ==> s'.procs[pid] >= s.procs[pid]
    requires forall o :: o in s'.items && o != tk ==> o in s.items && s'.items[o] == s.items[o]
    requires tk in s'.items ==> s'.items[tk].path == i.path && s'.items[tk].keepJson == i.keepJson && ItemSound(s', tk)
    ensures Sound(files, s')
  {
    forall o | o in s'.items && o != tk ensures ItemSound(s', o) {
      TmpsDiffer(o, s.items[o], tk, i);
      assert ItemSound(s, o);
    }
    TmpPathIsTemp(i.path, i.keepJson, tk.pid, tk.n);
    forall p ensures TargetSound(files, s', p) {
      assert TargetSound(files, s, p);
    }
  }

  /** Stage changes alone: files, counters and payloads stay, and what is released only grows. */
  lemma OnlyStagesChanged(files: map<string, string>, s: State, s': State)
    requires Sound(files, s)
    requires s'.fs == s.fs && s'.released >= s.released && s'.approved >= s.approved
    requires forall r :: r in s'.released && r.request.Some? ==> r.request.value in s'.approved
    requires forall tk :: tk in s'.items ==> ItemSound(s', tk)
    ensures Sound(files, s')
  {
    forall p ensures TargetSound(files, s', p) {
      assert TargetSound(files, s, p);
    }
  }

  lemma RenameKeepsSound(files: map<string, string>, s: State, tk: Ticket, worked: bool)
    requires Sound(files, s) && tk in s.items && (s.items[tk].stage.Direct? || s.items[tk].stage.Landing?)
    ensures Sound(files, Renamed(s, tk, worked))
  {
    var i := s.items[tk];
    var tmp := Tmp(tk, i);
    var s' := Renamed(s, tk, worked);
    assert ItemSound(s, tk);
    TmpPathIsTemp(i.path, i.keepJson, tk.pid, tk.n);
    forall o | o in s'.items && o != tk ensures ItemSound(s', o) {
      TmpsDiffer(o, s.items[o], tk, i);
      assert ItemSound(s, o);
    }
    forall p ensures TargetSound(files, s', p) {
      assert TargetSound(files, s, p);
      if p == i.path && worked && tmp in s.fs {
        assert i.payload[..i.written] == i.payload;
        assert Release(i.path, i.payload, i.request) in s'.released;
      }
    }
  }

  lemma OpenKeepsSound(files: map<string, string>, s: State, a: Action)
    requires Sound(files, s) && a.Open?
    ensures Sound(files, Do(s, a))
  {
    if Free(s, a.t) && s.threads[a.t].pid in s.procs && !IsTempName(a.path) {
      var s' := Do(s, a);
      var pid := s.threads[a.t].pid;
      var tk := Ticket(pid, s.procs[pid]);
      OneTmpChanged(files, s, s', tk, s'.items[tk]);
    }
  }

  lemma FillKeepsSound(files: map<string, string>, s: State, tk: Ticket, bytes: nat)
    requires Sound(files, s)
    ensures Sound(files, Do(s, Fill(tk, bytes)))
  {
    var s' := Do(s, Fill(tk, bytes));
    if s' != s {
      var i := s.items[tk];
      assert ItemSound(s, tk);
      assert i.payload[..i.written + bytes] == i.payload[..i.written] + i.payload[i.written..i.written + bytes];
      OneTmpChanged(files, s, s', tk, i);
    }
  }

  lemma RemoveKeepsSound(files: map<string, string>, s: State, tk: Ticket, worked: bool)
    requires Sound(files, s)
    ensures Sound(files, Do(s, Remove(tk, worked)))
  {
    var s' := Do(s, Remove(tk, worked));
    if s' != s {
      OneTmpChanged(files, s, s', tk, s.items[tk]);
    }
  }

  /** Restaging the staged writes of one thread, whose request may change if they are all to be removed. */
  lemma RestageItem(s: State, s': State, t: nat, from: nat, to: Stage, tk: Ticket)
    requires tk in s.items && ItemSound(s, tk) && Free(s, t)
    requires s'.items == Restage(s, t, from, to) && s'.fs == s.fs && s'.procs == s.procs && s'.released >= s.released
    requires to.Dropping? || (to.Landing? && ReleasedBy(s, t) <= s'.released)
    requires s'.threads.Keys == s.threads.Keys && s'.threads[t].pid == s.threads[t].pid
    requires s'.threads[t] == s.threads[t] || (to.Dropping? && from == 0)
    requires forall o :: o in s.threads && o != t ==> s'.threads[o] == s.threads[o]
    ensures ItemSound(s', tk)
  {
    var i := s.items[tk];
    if i.owner == t && i.stage.Staged? {
      assert Release(i.path, i.payload, i.request) in ReleasedBy(s, t);
    }
  }

  lemma SettleKeepsSound(files: map<string, string>, s: State, a: Action)
    requires Sound(files, s) && a.Settle?
    ensures Sound(files, Do(s, a))
  {
    if Free(s, a.t) && s.threads[a.t].request.Some? {
      var s' := Do(s, a);
      var landing := a.delivered && a.now < s.threads[a.t].request.value.hard;
      forall tk | tk in s'.items ensures ItemSound(s', tk) {
        RestageItem(s, s', a.t, 0, if landing then Landing else Dropping, tk);
      }
      forall r | r in s'.released && r.request.Some? ensures r.request.value in s'.approved {
        if r !in s.released {
          var tk :| tk in s.items && s.items[tk].owner == a.t && s.items[tk].stage.Staged?
                    && r == Release(s.items[tk].path, s.items[tk].payload, s.items[tk].request);
          assert ItemSound(s, tk);
        }
      }
      OnlyStagesChanged(files, s, s');
    }
  }

  /** Begin, End and Discard mark staged writes for removal. */
  lemma RestageKeepsSound(files: map<string, string>, s: State, a: Action)
    requires Sound(files, s)
    requires a.Begin? || a.End? || a.Discard?
    ensures Sound(files, Do(s, a))
  {
    if Free(s, a.t) {
      var s' := Do(s, a);
      forall tk | tk in s'.items ensures ItemSound(s', tk) {
        RestageItem(s, s', a.t, if a.Discard? then a.from else 0, Dropping, tk);
      }
      OnlyStagesChanged(files, s, s');
    }
  }

  lemma StageKeepsSound(files: map<string, string>, s: State, tk: Ticket, stage: Stage)
    requires Sound(files, s) && tk in s.items
    requires stage.Dropping? || (stage.Staged? && s.items[tk].stage.Writing? && s.items[tk].request.Some?)
    requires stage.Staged? ==> s.items[tk].written == |s.items[tk].payload|
    ensures Sound(files, s.(items := s.items[tk := s.items[tk].(stage := stage)]))
  {
    var s' := s.(items := s.items[tk := s.items[tk].(stage := stage)]);
    assert ItemSound(s, tk);
    forall o | o in s'.items ensures ItemSound(s', o) {
      assert ItemSound(s, o);
    }
    OnlyStagesChanged(files, s, s');
  }

  /** A write made outside a request is released as soon as it is complete. */
  lemma DirectKeepsSound(files: map<string, string>, s: State, tk: Ticket)
    requires Sound(files, s) && tk in s.items && s.items[tk].stage.Writing? && s.items[tk].request.None?
    requires s.items[tk].written == |s.items[tk].payload|
    ensures Sound(files, Do(s, Finish(tk)))
  {
    var s' := Do(s, Finish(tk));
    forall o | o in s'.items ensures ItemSound(s', o) {
      assert ItemSound(s, o);
    }
    OnlyStagesChanged(files, s, s');
  }

  lemma FinishKeepsSound(files: map<string, string>, s: State, tk: Ticket)
    requires Sound(files, s)
    ensures Sound(files, Do(s, Finish(tk)))
  {
    if tk in s.items && s.items[tk].stage.Writing? && s.items[tk].written == |s.items[tk].payload| {
      if s.items[tk].request.Some? {
        StageKeepsSound(files, s, tk, Staged);
      } else {
        DirectKeepsSound(files, s, tk);
      }
    }
  }

  lemma ProcessesKeepSound(files: map<string, string>, s: State, a: Action)
    requires Sound(files, s)
    requires a.StartProcess? || a.StartThread? || a.Kill? || a.SetHard?
    ensures Sound(files, Do(s, a))
  {
    var s' := Do(s, a);
    forall tk | tk in s'.items ensures ItemSound(s', tk) {
      assert ItemSound(s, tk);
    }
    OnlyStagesChanged(files, s, s');
  }

  lemma SweepKeepsSound(files: map<string, string>, s: State, path: string)
    requires Sound(files, s)
    ensures Sound(files, Do(s, Sweep(path)))
  {
    var s' := Do(s, Sweep(path));
    forall tk | tk in s'.items ensures ItemSound(s', tk) {
      assert ItemSound(s, tk);
    }
    forall p ensures TargetSound(files, s', p) {
      assert TargetSound(files, s, p);
    }
  }

  /**
   Through every run, kills included: what stands at a state file's path is its initial content, the whole payload of a write made
   outside a request, or the whole payload of a write staged in a request whose reply was delivered before its deadline.
   */
  lemma {:induction false} StateFilesAreWhole(files: map<string, string>, actions: seq<Action>)
    ensures Sound(files, Run(files, actions))
  {
    if actions != [] {
      var a := actions[|actions| - 1];
      var s := Run(files, actions[..|actions| - 1]);
      StateFilesAreWhole(files, actions[..|actions| - 1]);
      match a
      case Open(_, _, _, _, _) => OpenKeepsSound(files, s, a);
      case Fill(tk, bytes) => FillKeepsSound(files, s, tk, bytes);
      case Rename(tk, worked) =>
        if Do(s, a) != s { RenameKeepsSound(files, s, tk, worked); }
      case Remove(tk, worked) => RemoveKeepsSound(files, s, tk, worked);
      case Settle(_, _, _) => SettleKeepsSound(files, s, a);
      case Sweep(path) => SweepKeepsSound(files, s, path);
      case Begin(_, _) => RestageKeepsSound(files, s, a);
      case End(_) => RestageKeepsSound(files, s, a);
      case Discard(_, _) => RestageKeepsSound(files, s, a);
      case Fail(tk) =>
        if Do(s, a) != s { StageKeepsSound(files, s, tk, Dropping); }
      case Finish(tk) => FinishKeepsSound(files, s, tk);
      case _ => ProcessesKeepSound(files, s, a);
    }
  }

  // ---- only a rename touches a target

  /** A state file changes in one action only: the rename of a complete write made for it. */
  lemma TargetsChangeByRename(files: map<string, string>, s: State, a: Action, p: string)
    requires Sound(files, s) && !IsTempName(p)
    requires !(p in Do(s, a).fs <==> p in s.fs) || (p in s.fs && Do(s, a).fs[p] != s.fs[p])
    ensures a.Rename? && a.worked && a.tk in s.items && s.items[a.tk].path == p
    ensures s.items[a.tk].stage.Direct? || s.items[a.tk].stage.Landing?
    ensures p in Do(s, a).fs && Do(s, a).fs[p] == s.items[a.tk].payload
  {
    match a
    case Open(t, path, payload, keepJson, leave) =>
      if Free(s, t) {
        var pid := s.threads[t].pid;
        if pid in s.procs { TmpPathIsTemp(path, keepJson, pid, s.procs[pid]); }
      }
    case Fill(tk, _) => if tk in s.items { TmpPathIsTemp(s.items[tk].path, s.items[tk].keepJson, tk.pid, tk.n); }
    case Remove(tk, _) => if tk in s.items { TmpPathIsTemp(s.items[tk].path, s.items[tk].keepJson, tk.pid, tk.n); }
    case Rename(tk, _) =>
      if tk in s.items {
        TmpPathIsTemp(s.items[tk].path, s.items[tk].keepJson, tk.pid, tk.n);
        assert ItemSound(s, tk);
        assert s.items[tk].payload[..|s.items[tk].payload|] == s.items[tk].payload;
      }
    case _ =>
  }

  // ---- nothing is left behind

  /** No kill, every removal works, and no write asks to leave its temporary file after a failed rename. */
  predicate Gentle(a: Action) {
    && !a.Kill?
    && (a.Remove? ==> a.worked)
    && (a.Open? ==> !a.leave)
  }

  /** Every temporary file belongs to a write under way, and no such write would leave it. */
  predicate Tidy(s: State) {
    && (forall f :: f in s.fs && IsTempName(f) ==> exists tk :: tk in s.items && Tmp(tk, s.items[tk]) == f)
    && forall tk :: tk in s.items ==> !s.items[tk].leave && !IsTempName(s.items[tk].path)
  }

  lemma TidyFrom(s: State, s': State, f: string)
    requires Tidy(s) && f in s.fs && IsTempName(f)
    requires forall tk :: tk in s.items ==> tk in s'.items && Tmp(tk, s'.items[tk]) == Tmp(tk, s.items[tk])
    ensures exists tk :: tk in s'.items && Tmp(tk, s'.items[tk]) == f
  {
    var tk :| tk in s.items && Tmp(tk, s.items[tk]) == f;
    assert tk in s'.items && Tmp(tk, s'.items[tk]) == f;
  }

  /** The write that goes away takes its temporary file with it, and no other. */
  lemma GoneKeepsTidy(s: State, s': State, tk: Ticket)
    requires Tidy(s) && tk in s.items && s'.items == s.items - {tk}
    requires forall f :: f in s'.fs && IsTempName(f) ==> f in s.fs && f != Tmp(tk, s.items[tk])
    ensures Tidy(s')
  {
    forall f | f in s'.fs && IsTempName(f) ensures exists o :: o in s'.items && Tmp(o, s'.items[o]) == f {
      var o :| o in s.items && Tmp(o, s.items[o]) == f;
      assert o in s'.items && Tmp(o, s'.items[o]) == f;
    }
  }

  lemma SteadyKeepsTidy(s: State, s': State)
    requires Tidy(s)
    requires forall f :: f in s'.fs && IsTempName(f) ==> f in s.fs
    requires s'.items.Keys == s.items.Keys
    requires forall tk :: tk in s.items ==>
      var i, i' := s.items[tk], s'.items[tk]; i'.path == i.path && i'.keepJson == i.keepJson && i'.leave == i.leave
    ensures Tidy(s')
  {
    forall f | f in s'.fs && IsTempName(f) ensures exists tk :: tk in s'.items && Tmp(tk, s'.items[tk]) == f {
      TidyFrom(s, s', f);
    }
  }

  lemma OpenKeepsTidy(files: map<string, string>, s: State, a: Action)
    requires Sound(files, s) && Tidy(s) && a.Open? && !a.leave
    ensures Tidy(Do(s, a))
  {
    var s' := Do(s, a);
    if Free(s, a.t) && s.threads[a.t].pid in s.procs && !IsTempName(a.path) {
      var tk := Ticket(s.threads[a.t].pid, s.procs[s.threads[a.t].pid]);
      assert forall o :: o in s.items ==> ItemSound(s, o);
      forall f | f in s'.fs && IsTempName(f) ensures exists o :: o in s'.items && Tmp(o, s'.items[o]) == f {
        if f == Tmp(tk, s'.items[tk]) {
        } else {
          TidyFrom(s, s', f);
        }
      }
    }
  }

  lemma RenameKeepsTidy(s: State, tk: Ticket, worked: bool)
    requires Tidy(s) && tk in s.items
    ensures Tidy(Renamed(s, tk, worked))
  {
    var i := s.items[tk];
    TmpPathIsTemp(i.path, i.keepJson, tk.pid, tk.n);
    if worked && Tmp(tk, i) in s.fs {
      GoneKeepsTidy(s, Renamed(s, tk, worked), tk);
    } else {
      SteadyKeepsTidy(s, Renamed(s, tk, worked));
    }
  }

  /** The actions that neither make nor end a write. */
  predicate Keeps(a: Action) {
    !a.Open? && !a.Rename? && !a.Remove? && !a.Kill?
  }

  lemma RestageKeepsItem(s: State, t: nat, from: nat, stage: Stage, tk: Ticket)
    ensures var items := Restage(s, t, from, stage);
      && (tk in items <==> tk in s.items)
      && (tk in items ==>
           var i, i' := s.items[tk], items[tk]; i'.path == i.path && i'.keepJson == i.keepJson && i'.leave == i.leave)
  {
  }

  lemma KeepsItem(s: State, a: Action, tk: Ticket)
    requires Keeps(a)
    ensures var s' := Do(s, a);
      && (tk in s'.items <==> tk in s.items)
      && (tk in s.items ==>
           var i, i' := s.items[tk], s'.items[tk]; i'.path == i.path && i'.keepJson == i.keepJson && i'.leave == i.leave)
  {
    hide Tmp, ReleasedBy, FirstToLand, IsTempName, Restage;
    match a
    case Begin(t, _) => RestageKeepsItem(s, t, 0, Dropping, tk);
    case Discard(t, from) => RestageKeepsItem(s, t, from, Dropping, tk);
    case Settle(t, _, _) =>
      RestageKeepsItem(s, t, 0, Dropping, tk);
      RestageKeepsItem(s, t, 0, Landing, tk);
    case End(t) => RestageKeepsItem(s, t, 0, Dropping, tk);
    case _ =>
  }

  lemma KeepsFiles(s: State, a: Action, f: string)
    requires Keeps(a) && f in Do(s, a).fs
    ensures f in s.fs
  {
  }

  lemma StepKeepsTidy(files: map<string, string>, s: State, a: Action)
    requires Sound(files, s) && Tidy(s) && Gentle(a)
    ensures Tidy(Do(s, a))
  {
    if a.Open? {
      OpenKeepsTidy(files, s, a);
    } else if Do(s, a) == s {
    } else if a.Rename? {
      RenameKeepsTidy(s, a.tk, a.worked);
    } else if a.Remove? {
      GoneKeepsTidy(s, Do(s, a), a.tk);
    } else {
      forall tk {
        KeepsItem(s, a, tk);
      }
      forall f | f in Do(s, a).fs ensures f in s.fs {
        KeepsFiles(s, a, f);
      }
      SteadyKeepsTidy(s, Do(s, a));
    }
  }

  lemma {:induction false} RunsStayTidy(files: map<string, string>, actions: seq<Action>)
    requires forall f :: f in files ==> !IsTempName(f)
    requires forall i :: 0 <= i < |actions| ==> Gentle(actions[i])
    ensures Tidy(Run(files, actions))
  {
    if actions != [] {
      var before := actions[..|actions| - 1];
      RunsStayTidy(files, before);
      StateFilesAreWhole(files, before);
      StepKeepsTidy(files, Run(files, before), actions[|actions| - 1]);
    }
  }

  /**
   In a run without kills or failed removals, a temporary file always belongs to a write under way, or to one staged for the request
   its thread serves now: once a request has ended and its removals are done, none of its temporary files remains.
   */
  lemma NoTempOfEndedRequest(files: map<string, string>, actions: seq<Action>, f: string)
    requires forall g :: g in files ==> !IsTempName(g)
    requires forall i :: 0 <= i < |actions| ==> Gentle(actions[i])
    requires f in Run(files, actions).fs && IsTempName(f)
    ensures var s := Run(files, actions);
      exists tk :: tk in s.items && Tmp(tk, s.items[tk]) == f && (s.items[tk].stage.Staged? ==> ServedNow(s, s.items[tk]))
  {
    RunsStayTidy(files, actions);
    StateFilesAreWhole(files, actions);
    var s := Run(files, actions);
    var tk :| tk in s.items && Tmp(tk, s.items[tk]) == f;
    assert ItemSound(s, tk);
  }

  /** The write was made in the request its thread serves now. */
  predicate ServedNow(s: State, i: Item) {
    && i.owner in s.threads && s.threads[i.owner].request.Some?
    && i.request == Some(s.threads[i.owner].request.value.id)
  }
}
