/**
 The request a worker thread serves: its two deadlines, the state writes it has staged, and what becomes of them when the reply was
 delivered, was not, or came too late.
 */
module Deadline {
  import opened Prelude
  import opened AtomicNames

  type Disk = map<string, string>

  datatype Style = Style(keepJson: bool, leave: bool)

  /** A staged write: its counter names the temporary file already written. */
  datatype Staged = Staged(n: nat, path: string, style: Style)

  datatype Request = Request(arrived: nat, soft: Option<nat>, hard: Option<nat>, noted: bool)

  function TmpOf(pid: nat, w: Staged): string {
    TmpPath(w.path, w.style.keepJson, pid, w.n)
  }

  /** How one `replace` ended: renamed, or not and its temporary file removed, or left because the style or a failure leaves it. */
  datatype Outcome = Renamed | Cleared | Left

  function Land(disk: Disk, pid: nat, w: Staged, o: Outcome): Disk {
    var tmp := TmpOf(pid, w);
    match o
    case Renamed => if tmp in disk then (disk - {tmp})[w.path := disk[tmp]] else disk
    case Cleared => disk - {tmp}
    case Left => disk
  }

  function LandAll(disk: Disk, pid: nat, ws: seq<Staged>, outcomes: seq<Outcome>): Disk
    requires |outcomes| == |ws|
  {
    if ws == [] then disk else
      var n := |ws| - 1;
      Land(LandAll(disk, pid, ws[..n], outcomes[..n]), pid, ws[n], outcomes[n])
  }

  /** The temporary files of the staged writes are gone, but those whose removal failed; nothing else changed. */
  function Removed(disk: Disk, pid: nat, ws: seq<Staged>, gone: seq<bool>): Disk
    requires |gone| == |ws|
  {
    disk - (set i | 0 <= i < |ws| && gone[i] :: TmpOf(pid, ws[i]))
  }

  lemma RemovedNext(disk: Disk, pid: nat, ws: seq<Staged>, gone: seq<bool>, w: Staged, g: bool)
    requires |gone| == |ws|
    ensures Removed(disk, pid, ws + [w], gone + [g])
         == if g then Removed(disk, pid, ws, gone) - {TmpOf(pid, w)} else Removed(disk, pid, ws, gone)
  {
    var before := set i | 0 <= i < |ws| && gone[i] :: TmpOf(pid, ws[i]);
    var ws', gone' := ws + [w], gone + [g];
    var after := set i | 0 <= i < |ws'| && gone'[i] :: TmpOf(pid, ws'[i]);
    assert g ==> gone'[|ws|] && TmpOf(pid, ws'[|ws|]) in after;
    forall i | 0 <= i < |ws| && gone[i] ensures TmpOf(pid, ws[i]) in after {
      assert gone'[i] && ws'[i] == ws[i];
    }
    assert after == if g then before + {TmpOf(pid, w)} else before;
  }

  /** Staged in the order made, each with its own counter below the next one, for paths that are not temporary names. */
  predicate InOrder(ws: seq<Staged>, counter: nat) {
    && (forall i, j :: 0 <= i < j < |ws| ==> ws[i].n < ws[j].n)
    && forall i :: 0 <= i < |ws| ==> ws[i].n < counter && !IsTempName(ws[i].path)
  }

  /** The last of the writes to `p` that was renamed. */
  function LastTo(disk: Disk, pid: nat, ws: seq<Staged>, outcomes: seq<Outcome>, p: string): Option<Staged>
    requires |outcomes| == |ws|
  {
    if ws == [] then None else
      var n := |ws| - 1;
      if ws[n].path == p && outcomes[n].Renamed? && TmpOf(pid, ws[n]) in disk then Some(ws[n])
      else LastTo(disk, pid, ws[..n], outcomes[..n], p)
  }

  lemma TmpNeverTarget(pid: nat, w: Staged, p: string)
    requires !IsTempName(p)
    ensures TmpOf(pid, w) != p
  {
    TmpPathIsTemp(w.path, w.style.keepJson, pid, w.n);
  }

  lemma {:induction false} EarlierLeaveTmp(disk: Disk, pid: nat, ws: seq<Staged>, outcomes: seq<Outcome>, w: Staged, counter: nat)
    requires |outcomes| == |ws| && InOrder(ws, counter)
    requires forall i :: 0 <= i < |ws| ==> ws[i].n != w.n
    ensures var d := LandAll(disk, pid, ws, outcomes); var tmp := TmpOf(pid, w);
      (tmp in d <==> tmp in disk) && (tmp in d ==> d[tmp] == disk[tmp])
  {
    if ws != [] {
      var n := |ws| - 1;
      EarlierLeaveTmp(disk, pid, ws[..n], outcomes[..n], w, counter);
      TmpPathIsTemp(w.path, w.style.keepJson, pid, w.n);
      if TmpOf(pid, w) == TmpOf(pid, ws[n]) {
        TmpPathsDiffer(w.path, w.style.keepJson, pid, w.n, ws[n].path, ws[n].style.keepJson, pid, ws[n].n);
      }
    }
  }

  /**
   Landing in order, each rename working or not: a state file holds what the last renamed write to it staged, or what it held before.
   */
  lemma {:induction false} LandedTarget(disk: Disk, pid: nat, ws: seq<Staged>, outcomes: seq<Outcome>, p: string, counter: nat)
    requires |outcomes| == |ws| && InOrder(ws, counter) && !IsTempName(p)
    ensures var d := LandAll(disk, pid, ws, outcomes);
      match LastTo(disk, pid, ws, outcomes, p)
      case Some(w) => TmpOf(pid, w) in disk && p in d && d[p] == disk[TmpOf(pid, w)]
      case None => (p in d <==> p in disk) && (p in d ==> d[p] == disk[p])
  {
    if ws != [] {
      var n := |ws| - 1;
      LandedTarget(disk, pid, ws[..n], outcomes[..n], p, counter);
      EarlierLeaveTmp(disk, pid, ws[..n], outcomes[..n], ws[n], counter);
      TmpNeverTarget(pid, ws[n], p);
    }
  }

  /**
   Cut after any number of the writes: every state file holds what the last of those renamed to it staged, or what it held before, and
   what the others staged is still in their temporary files.
   */
  lemma {:induction false} CutLanding(
    disk: Disk, pid: nat, ws: seq<Staged>, outcomes: seq<Outcome>, cut: nat, p: string, counter: nat)
    requires |outcomes| == |ws| && InOrder(ws, counter) && !IsTempName(p) && cut <= |ws|
    ensures var d := LandAll(disk, pid, ws[..cut], outcomes[..cut]);
      && (match LastTo(disk, pid, ws[..cut], outcomes[..cut], p)
          case Some(w) => w in ws[..cut] && w.path == p && TmpOf(pid, w) in disk && p in d && d[p] == disk[TmpOf(pid, w)]
          case None => (p in d <==> p in disk) && (p in d ==> d[p] == disk[p]))
      && forall i :: cut <= i < |ws| ==>
           var tmp := TmpOf(pid, ws[i]); (tmp in d <==> tmp in disk) && (tmp in d ==> d[tmp] == disk[tmp])
  {
    var head, tried := ws[..cut], outcomes[..cut];
    assert InOrder(head, counter);
    LandedTarget(disk, pid, head, tried, p, counter);
    LastToIsTo(disk, pid, head, tried, p);
    var d := LandAll(disk, pid, head, tried);
    forall i | cut <= i < |ws|
      ensures var tmp := TmpOf(pid, ws[i]); (tmp in d <==> tmp in disk) && (tmp in d ==> d[tmp] == disk[tmp])
    {
      EarlierLeaveTmp(disk, pid, head, tried, ws[i], counter);
    }
  }

  lemma {:induction false} LastToIsTo(disk: Disk, pid: nat, ws: seq<Staged>, outcomes: seq<Outcome>, p: string)
    requires |outcomes| == |ws|
    ensures var last := LastTo(disk, pid, ws, outcomes, p); last.Some? ==> last.value in ws && last.value.path == p
  {
    if ws != [] {
      LastToIsTo(disk, pid, ws[..|ws| - 1], outcomes[..|ws| - 1], p);
    }
  }

  /** Landing leaves no temporary file but one whose rename failed and whose removal failed or was not wanted. */
  lemma {:induction false} LandingLeavesNoTmp(disk: Disk, pid: nat, ws: seq<Staged>, outcomes: seq<Outcome>, counter: nat, i: nat)
    requires |outcomes| == |ws| && InOrder(ws, counter) && i < |ws|
    requires !outcomes[i].Left?
    requires TmpOf(pid, ws[i]) in disk
    ensures TmpOf(pid, ws[i]) !in LandAll(disk, pid, ws, outcomes)
  {
    var n := |ws| - 1;
    TmpPathIsTemp(ws[i].path, ws[i].style.keepJson, pid, ws[i].n);
    assert ws[n].path != TmpOf(pid, ws[i]);
    if i < n {
      LandingLeavesNoTmp(disk, pid, ws[..n], outcomes[..n], counter, i);
    } else {
      EarlierLeaveTmp(disk, pid, ws[..n], outcomes[..n], ws[n], counter);
    }
  }

  // ---- the overrun of the soft deadline

  /** Both deadlines of a request are moved. */
  function Moved(r: Request, soft: nat, hard: nat): Request {
    r.(soft := Some(soft), hard := Some(hard))
  }

  predicate Past(r: Request, now: nat) {
    r.soft.Some? && r.soft.value <= now
  }

  /** The overrun is reported: past the soft deadline, and not reported before. */
  predicate Overrun(r: Request, now: nat) {
    Past(r, now) && !r.noted
  }

  function Asked(r: Request, now: nat): Request {
    if Overrun(r, now) then r.(noted := true) else r
  }

  /** What happens to a request that matters here: it is asked for an overrun, or its deadlines are moved. */
  datatype Call = Ask(now: nat) | Move(soft: nat, hard: nat)

  function AfterCalls(r: Request, calls: seq<Call>): Request {
    if calls == [] then r else
      var before := AfterCalls(r, calls[..|calls| - 1]);
      match calls[|calls| - 1]
      case Ask(now) => Asked(before, now)
      case Move(soft, hard) => Moved(before, soft, hard)
  }

  /** Call `i` asks past the soft deadline as it then stands. */
  predicate AsksPast(r: Request, calls: seq<Call>, i: int) {
    && 0 <= i < |calls| && calls[i].Ask?
    && var soft := AfterCalls(r, calls[..i]).soft; soft.Some? && calls[i].now >= soft.value
  }

  lemma {:induction false} NotedMeansAsked(r: Request, calls: seq<Call>)
    requires !r.noted
    ensures AfterCalls(r, calls).noted <==> exists i :: AsksPast(r, calls, i)
  {
    if calls != [] {
      var n := |calls| - 1;
      NotedMeansAsked(r, calls[..n]);
      forall i | 0 <= i < n ensures AsksPast(r, calls, i) == AsksPast(r, calls[..n], i) {
        assert calls[..n][..i] == calls[..i];
      }
      assert AsksPast(r, calls, n) ==> AfterCalls(r, calls).noted;
    }
  }

  /**
   Over any calls in a request, its deadlines moved or not, the overrun is reported by exactly one: the first that asks past the soft
   deadline as it then stands.
   */
  lemma OverrunIsNotedOnce(r: Request, calls: seq<Call>, i: nat)
    requires !r.noted && i < |calls| && calls[i].Ask?
    ensures Overrun(AfterCalls(r, calls[..i]), calls[i].now) <==>
      AsksPast(r, calls, i) && forall j :: 0 <= j < i ==> !AsksPast(r, calls, j)
  {
    NotedMeansAsked(r, calls[..i]);
    forall j | 0 <= j < i ensures AsksPast(r, calls, j) == AsksPast(r, calls[..i], j) {
      assert calls[..i][..j] == calls[..j];
    }
  }

  /** The deadlines that stand are those of the last move, or of the request's start where none was made. */
  lemma {:induction false} LastMoveStands(r: Request, calls: seq<Call>, i: int)
    requires -1 <= i < |calls| && (i >= 0 ==> calls[i].Move?) && forall j :: i < j < |calls| ==> calls[j].Ask?
    ensures var after := AfterCalls(r, calls);
      && after.soft == (if i < 0 then r.soft else Some(calls[i].soft))
      && after.hard == (if i < 0 then r.hard else Some(calls[i].hard))
      && after.arrived == r.arrived
  {
    if calls != [] {
      var n := |calls| - 1;
      if i < n {
        LastMoveStands(r, calls[..n], i);
      } else {
        ArrivalStands(r, calls[..n]);
      }
    }
  }

  lemma {:induction false} ArrivalStands(r: Request, calls: seq<Call>)
    ensures AfterCalls(r, calls).arrived == r.arrived
  {
    if calls != [] {
      ArrivalStands(r, calls[..|calls| - 1]);
    }
  }

  /** The file system, whose operations may fail. */
  class Files {
    var disk: Disk

    constructor (disk: Disk)
      ensures this.disk == disk
    {
      this.disk := disk;
    }

    /** Create, write and sync: on failure any part of the bytes, or no file at all, may be there. */
    method Write(tmp: string, bytes: string) returns (ok: bool)
      modifies this
      ensures ok ==> disk == old(disk)[tmp := bytes]
      ensures forall p :: p != tmp ==> (p in disk <==> p in old(disk)) && (p in disk ==> disk[p] == old(disk)[p])
    {
      ok := *;
      if ok {
        disk := disk[tmp := bytes];
      } else {
        var created: bool, part: string := *, *;
        disk := if created then disk[tmp := part] else disk;
      }
    }

    /** Remove a file, which may fail; `gone` tells whether it is there no longer. */
    method Remove(p: string) returns (gone: bool)
      modifies this
      ensures gone <==> p !in disk
      ensures disk == if gone then old(disk) - {p} else old(disk)
    {
      var works: bool := *;
      if works {
        disk := disk - {p};
      }
      gone := p !in disk;
    }

    method Replace(pid: nat, w: Staged) returns (o: Outcome)
      modifies this
      ensures disk == Land(old(disk), pid, w, o)
      ensures o.Renamed? ==> TmpOf(pid, w) in old(disk)
      ensures w.style.leave ==> !o.Cleared?
      ensures o.Cleared? ==> TmpOf(pid, w) !in disk
    {
      var works: bool := *;
      var tmp := TmpOf(pid, w);
      o := Left;
      if works && tmp in disk {
        disk := (disk - {tmp})[w.path := disk[tmp]];
        o := Renamed;
      } else if !w.style.leave {
        var gone := Remove(tmp);
        o := if gone then Cleared else Left;
      }
    }
  }

  datatype Config = Config(clientMs: nat, hardMs: nat, slackMs: nat)

  /** The thread-local state of a daemon worker. */
  class Worker {
    const pid: nat
    const files: Files
    const config: Config
    var counter: nat
    var request: Option<Request>
    var staged: seq<Staged>

    constructor (pid: nat, files: Files, config: Config)
      ensures this.pid == pid && this.files == files && this.config == config
      ensures Valid() && request == None && staged == []
    {
      this.pid, this.files, this.config := pid, files, config;
      counter, request, staged := 0, None, [];
    }

    ghost predicate Valid()
      reads this
    {
      InOrder(staged, counter)
    }

    /** When the client stops waiting `ms` after sending, less the time to write the reply. */
    function At(arrived: nat, ms: nat): nat {
      arrived + SatSub(ms, config.slackMs)
    }

    method SetWindow(softMs: nat, hardMs: nat)
      modifies this`request
      ensures old(request).None? ==> request == None
      ensures old(request).Some? ==> var r := old(request).value;
        request == Some(Moved(r, At(r.arrived, softMs), At(r.arrived, hardMs)))
    {
      if request.Some? {
        var r := request.value;
        request := Some(r.(soft := Some(At(r.arrived, softMs)), hard := Some(At(r.arrived, hardMs))));
      }
    }

    /** A client's wait moves both deadlines; a wait longer than the configured one moves the cut along with it. */
    method ClientWindow(softMs: nat)
      modifies this`request
      ensures old(request).None? ==> request == None
      ensures old(request).Some? ==> request.Some? && var (was, r) := (old(request).value, request.value);
        && r.arrived == was.arrived && r.noted == was.noted
        && r.soft == Some(At(was.arrived, softMs)) && r.hard.Some? && r.soft.value <= r.hard.value
        && r.hard.value >= At(was.arrived, config.hardMs)
        && (softMs >= config.hardMs ==> r.hard == r.soft)
        && (softMs <= config.hardMs ==> r.hard == Some(At(was.arrived, config.hardMs)))
    {
      SetWindow(softMs, Max(softMs, config.hardMs));
    }

    predicate InTime(now: nat)
      reads this
    {
      request.None? || request.value.hard.None? || now < request.value.hard.value
    }

    /** Reports an overrun of the soft deadline, once. */
    method NoteSoftOverrun(now: nat) returns (first: bool)
      modifies this`request
      ensures old(request).None? ==> !first && request == None
      ensures old(request).Some? ==> (first, request) == (Overrun(old(request).value, now), Some(Asked(old(request).value, now)))
    {
      first := request.Some? && Overrun(request.value, now);
      if first {
        request := Some(request.value.(noted := true));
      }
    }

    /** Drop the writes staged after a mark. */
    method DiscardStagedSince(mark: nat) returns (gone: seq<bool>)
      requires Valid()
      modifies this`staged, files
      ensures Valid()
      ensures staged == old(staged)[..Min(mark, |old(staged)|)]
      ensures |gone| == |old(staged)| - Min(mark, |old(staged)|)
      ensures files.disk == Removed(old(files.disk), pid, old(staged)[Min(mark, |old(staged)|)..], gone)
    {
      var at := Min(mark, |staged|);
      var tail := staged[at..];
      staged, gone := staged[..at], [];
      for i := 0 to |tail|
        modifies files
        invariant |gone| == i && files.disk == Removed(old(files.disk), pid, tail[..i], gone)
      {
        var g := files.Remove(TmpOf(pid, tail[i]));
        RemovedNext(old(files.disk), pid, tail[..i], gone, tail[i], g);
        assert tail[..i + 1] == tail[..i] + [tail[i]];
        gone := gone + [g];
      }
      assert tail[..|tail|] == tail;
    }

    method DiscardStaged() returns (gone: seq<bool>)
      requires Valid()
      modifies this`staged, files
      ensures Valid() && staged == []
      ensures |gone| == |old(staged)| && files.disk == Removed(old(files.disk), pid, old(staged), gone)
    {
      gone := DiscardStagedSince(0);
    }

    /** Each staged write in turn replaces its target; one that fails leaves the next to be tried all the same. */
    method CommitStaged() returns (outcomes: seq<Outcome>)
      requires Valid()
      modifies this`staged, files
      ensures Valid() && staged == []
      ensures |outcomes| == |old(staged)| && files.disk == LandAll(old(files.disk), pid, old(staged), outcomes)
    {
      var ws := staged;
      staged, outcomes := [], [];
      for i := 0 to |ws|
        modifies files
        invariant |outcomes| == i && files.disk == LandAll(old(files.disk), pid, ws[..i], outcomes)
      {
        var o := files.Replace(pid, ws[i]);
        assert ws[..i + 1][..i] == ws[..i] && (outcomes + [o])[..i] == outcomes;
        outcomes := outcomes + [o];
      }
      assert ws[..|ws|] == ws;
    }

    /** The staged state lands only when the client got the reply in time; otherwise every state file is as it was. */
    method SettleStaged(delivered: bool, now: nat) returns (outcomes: seq<Outcome>, gone: seq<bool>)
      requires Valid()
      modifies this`staged, files
      ensures Valid() && staged == []
      ensures delivered && (request.None? || request.value.hard.None? || now < request.value.hard.value) ==>
        |outcomes| == |old(staged)| && files.disk == LandAll(old(files.disk), pid, old(staged), outcomes)
      ensures !delivered || (request.Some? && request.value.hard.Some? && request.value.hard.value <= now) ==>
        && |gone| == |old(staged)| && files.disk == Removed(old(files.disk), pid, old(staged), gone)
        && forall p :: !IsTempName(p) ==> (p in files.disk <==> p in old(files.disk)) && (p in files.disk ==> files.disk[p] == old(files.disk)[p])
    {
      outcomes, gone := [], [];
      if delivered && InTime(now) {
        outcomes := CommitStaged();
      } else {
        ghost var ws := staged;
        gone := DiscardStaged();
        forall p, w | !IsTempName(p) && w in ws ensures TmpOf(pid, w) != p {
          TmpNeverTarget(pid, w, p);
        }
      }
    }

    method Begin(arrived: nat) returns (gone: seq<bool>)
      requires Valid()
      modifies this`staged, this`request, files
      ensures Valid() && staged == []
      ensures |gone| == |old(staged)| && files.disk == Removed(old(files.disk), pid, old(staged), gone)
      ensures request == Some(Request(arrived, Some(At(arrived, config.clientMs)), Some(At(arrived, Max(config.clientMs, config.hardMs))), false))
    {
      gone := DiscardStaged();
      request := Some(Request(arrived, None, None, false));
      ClientWindow(config.clientMs);
    }

    method End() returns (gone: seq<bool>)
      requires Valid()
      modifies this`staged, this`request, files
      ensures Valid() && staged == [] && request == None
      ensures |gone| == |old(staged)| && files.disk == Removed(old(files.disk), pid, old(staged), gone)
    {
      gone := DiscardStaged();
      request := None;
    }

    /**
     Write state that silences a later answer: at once outside a request, staged inside one. Either way a failure leaves every state
     file as it was, and inside a request a success does too.
     */
    method WriteAfterReply(path: string, bytes: string, style: Style) returns (ok: bool, left: bool)
      requires Valid() && !IsTempName(path)
      modifies this`counter, this`staged, files
      ensures Valid() && counter == old(counter) + 1
      ensures var w := Staged(old(counter), path, style);
        && (request.Some? && ok ==> staged == old(staged) + [w] && files.disk == old(files.disk)[TmpOf(pid, w) := bytes])
        && (request.None? || !ok ==> staged == old(staged))
        && (request.None? && ok ==> files.disk == (old(files.disk) - {TmpOf(pid, w)})[path := bytes])
        && (!ok ==> forall p :: p != TmpOf(pid, w) ==>
              (p in files.disk <==> p in old(files.disk)) && (p in files.disk ==> files.disk[p] == old(files.disk)[p]))
        && (!ok && !left ==> TmpOf(pid, w) !in files.disk)
    {
      var w := Staged(counter, path, style);
      counter := counter + 1;
      TmpNeverTarget(pid, w, path);
      left := false;
      ok := files.Write(TmpOf(pid, w), bytes);
      if !ok {
        var gone := files.Remove(TmpOf(pid, w));
        left := !gone;
      } else if request.None? {
        var o := files.Replace(pid, w);
        ok, left := o.Renamed?, o.Left?;
      } else {
        staged := staged + [w];
      }
    }
  }

  /** A length of time less another, or nothing. */
  function Less(ms: nat, slack: nat): nat {
    if slack <= ms then ms - slack else 0
  }

  /**
   The client's wait is set and then the reply is delivered: before the cut, which comes at the longer of the client's and the
   configured wait less the slack, all that was staged lands, the soft deadline passed or not; from it on every state file stays as it was.
   */
  method SettleAfterWindow(w: Worker, softMs: nat, now: nat) returns (outcomes: seq<Outcome>)
    requires w.Valid() && w.request.Some?
    modifies w`request, w`staged, w.files
    ensures w.Valid() && w.staged == []
    ensures var cut := old(w.request).value.arrived + Less(if softMs < w.config.hardMs then w.config.hardMs else softMs, w.config.slackMs);
      && (now < cut ==> |outcomes| == |old(w.staged)| && w.files.disk == LandAll(old(w.files.disk), w.pid, old(w.staged), outcomes))
      && (cut <= now ==> forall p :: !IsTempName(p) ==>
            (p in w.files.disk <==> p in old(w.files.disk)) && (p in w.files.disk ==> w.files.disk[p] == old(w.files.disk)[p]))
  {
    w.ClientWindow(softMs);
    var gone;
    outcomes, gone := w.SettleStaged(true, now);
  }
}
