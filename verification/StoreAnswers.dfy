/** What each write is answered and stores, in terms of the rows and messages held, and the answers of whole runs of messages. */
module StoreAnswers {
  import opened Prelude
  import opened HotTables
  import opened StoreLaws

  // ---- what a project holds

  /** The project has a row, expired or not, or a message nobody took. */
  ghost predicate Holds(t: Tables, project: string) {
    || (exists key :: (project, key) in t.kv)
    || exists i :: 0 <= i < |t.mail| && t.mail[i].project == project && !t.mail[i].consumed
  }

  lemma ProjectsHold(t: Tables, project: string)
    ensures project in Projects(t) <==> Holds(t, project)
  {
    if k :| k in t.kv && k.0 == project {
      assert (project, k.1) in t.kv;
    }
    if key :| (project, key) in t.kv {
      assert (project, key).0 == project;
    }
  }

  /** How many messages of a project wait. */
  function WaitingFor(mail: seq<MailRow>, project: string): nat {
    if mail == [] then 0 else
      var m := mail[|mail| - 1];
      WaitingFor(mail[..|mail| - 1], project) + if m.project == project && !m.consumed then 1 else 0
  }

  lemma {:induction false} PendingIsWaiting(mail: seq<MailRow>, project: string)
    ensures |Pending(mail, project)| == WaitingFor(mail, project)
  {
    if mail == [] {
    } else {
      var n := |mail| - 1;
      PendingIsWaiting(mail[..n], project);
      PendingAppend(mail[..n], [mail[n]], project);
      assert mail == mail[..n] + [mail[n]];
      assert [mail[n]][1..] == [];
    }
  }

  ghost predicate ActiveKey(t: Tables, project: string, key: string, now: int) {
    (project, key) in t.kv && (t.kv[(project, key)].expires.None? || t.kv[(project, key)].expires.value > now)
  }

  lemma ActiveKeysAre(t: Tables, project: string, key: string, now: int)
    ensures (project, key) in ActiveKeys(t, project, now) <==> ActiveKey(t, project, key, now)
    ensures forall k :: k in ActiveKeys(t, project, now) ==> k.0 == project
  {
  }

  // ---- single writes

  /** The job is tried without a fault and carries no id that was answered before. */
  predicate Fresh(t: Tables, a: Attempt) {
    a.op.Proj? && a.fault.None? && (a.op.writeId == "" || a.op.writeId !in t.applied)
  }

  /** The tables with the answer recorded under the write's id, if it has one. */
  function Recorded(t: Tables, writeId: string, v: string): Tables {
    if writeId == "" then t else t.(applied := t.applied[writeId := v])
  }

  /**
   A message is stored at the end of the mail and answered "ok" just when its project holds something or there is room for another
   project, and fewer of its messages wait than the cap; otherwise it is refused, for the project first.
   */
  lemma PutIsAnswered(caps: Caps, t: Tables, a: Attempt)
    requires Fresh(t, a) && a.op.verb.Put?
    ensures var (t', r) := Step(caps, t, a);
      var p := a.op.project;
      var room := Holds(t, p) || |Projects(t)| < caps.projects;
      && (r == Ok("ok") <==> room && WaitingFor(t.mail, p) < caps.mailbox)
      && (r == Err(TooManyProjects) <==> !room)
      && (r == Err(MailboxFull) <==> room && WaitingFor(t.mail, p) >= caps.mailbox)
      && (r.Ok? ==> t' == Recorded(t.(mail := t.mail + [MailRow(p, a.op.verb.body, false)]), a.op.writeId, "ok"))
      && (r.Err? ==> t' == t)
  {
    ProjectsHold(t, a.op.project);
    PendingIsWaiting(t.mail, a.op.project);
  }

  /** The expiry as the column holds it: 2^63 and more wraps to the negatives. */
  predicate ExpiresAs(asked: Option<U64>, held: Option<I64>) {
    match asked
    case None => held == None
    case Some(e) => held == Some(if e < 0x8000_0000_0000_0000 then e else e - 0x1_0000_0000_0000_0000)
  }

  /**
   A key is set and answered "ok" just when its project holds something or there is room for another project, and the key is active or
   fewer of the project's keys are than the cap; otherwise it is refused, for the project first.
   */
  lemma SetIsAnswered(caps: Caps, t: Tables, a: Attempt)
    requires Fresh(t, a) && a.op.verb.Set?
    ensures var (t', r) := Step(caps, t, a);
      var (p, key) := (a.op.project, a.op.verb.key);
      var room := Holds(t, p) || |Projects(t)| < caps.projects;
      var place := ActiveKey(t, p, key, a.now) || |ActiveKeys(t, p, a.now)| < caps.kv;
      && (r == Ok("ok") <==> room && place)
      && (r == Err(TooManyProjects) <==> !room)
      && (r == Err(TooManyKeys) <==> room && !place)
      && (r.Ok? ==>
            && (p, key) in t'.kv && t'.kv[(p, key)].value == a.op.verb.value && ExpiresAs(a.op.verb.expires, t'.kv[(p, key)].expires)
            && t' == Recorded(t.(kv := t.kv[(p, key) := t'.kv[(p, key)]]), a.op.writeId, "ok"))
      && (r.Err? ==> t' == t)
  {
    ProjectsHold(t, a.op.project);
    ActiveKeysAre(t, a.op.project, a.op.verb.key, a.now);
  }

  predicate OldestWaiting(mail: seq<MailRow>, project: string, i: int) {
    && 0 <= i < |mail| && mail[i].project == project && !mail[i].consumed
    && forall j :: 0 <= j < i ==> mail[j].project != project || mail[j].consumed
  }

  /** A take answers the oldest waiting message and consumes it and nothing else; with none waiting it answers nothing. */
  lemma TakeIsAnswered(caps: Caps, t: Tables, a: Attempt)
    requires Fresh(t, a) && a.op.verb.Take?
    ensures var (t', r) := Step(caps, t, a);
      var p := a.op.project;
      && r.Ok?
      && (WaitingFor(t.mail, p) == 0 ==> r.value == "" && t' == Recorded(t, a.op.writeId, ""))
      && (WaitingFor(t.mail, p) > 0 ==>
            exists i :: OldestWaiting(t.mail, p, i) && r.value == t.mail[i].body
                        && t' == Recorded(t.(mail := t.mail[i := MailRow(p, t.mail[i].body, true)]), a.op.writeId, r.value))
  {
    NextWaits(t.mail, a.op.project);
  }

  lemma {:induction false} NextWaits(mail: seq<MailRow>, project: string)
    ensures Next(mail, project).None? <==> WaitingFor(mail, project) == 0
  {
    PendingIsWaiting(mail, project);
    if mail != [] {
      NextWaits(mail[1..], project);
      PendingIsWaiting(mail[1..], project);
    }
  }

  // ---- runs of messages

  /** The project holds something, or there is room for another. */
  ghost predicate Room(caps: Caps, t: Tables, project: string) {
    Holds(t, project) || |Projects(t)| < caps.projects
  }

  /** A message for the project, tried without a fault and without a write id. */
  predicate PlainPut(a: Attempt, project: string) {
    a.op.Proj? && a.op.verb.Put? && a.op.project == project && a.op.writeId == "" && a.fault.None?
  }

  predicate AllPut(jobs: seq<Attempt>, project: string) {
    forall i :: 0 <= i < |jobs| ==> PlainPut(jobs[i], project)
  }

  function Messages(jobs: seq<Attempt>, project: string): seq<MailRow>
    requires AllPut(jobs, project)
  {
    seq(|jobs|, i requires 0 <= i < |jobs| => assert PlainPut(jobs[i], project); MailRow(project, jobs[i].op.verb.body, false))
  }

  lemma OnePut(caps: Caps, t: Tables, a: Attempt, project: string)
    requires PlainPut(a, project) && Room(caps, t, project)
    ensures var row := MailRow(project, a.op.verb.body, false);
      Step(caps, t, a) == if WaitingFor(t.mail, project) < caps.mailbox then (t.(mail := t.mail + [row]), Ok("ok")) else (t, Err(MailboxFull))
  {
    PutIsAnswered(caps, t, a);
  }

  lemma OneMoreWaits(caps: Caps, t: Tables, body: string, project: string)
    ensures var t' := t.(mail := t.mail + [MailRow(project, body, false)]);
      WaitingFor(t'.mail, project) == WaitingFor(t.mail, project) + 1 && Room(caps, t', project)
  {
    var mail := t.mail + [MailRow(project, body, false)];
    assert mail[..|mail| - 1] == t.mail && mail[|t.mail|] == MailRow(project, body, false);
  }

  lemma RunLast(caps: Caps, t: Tables, jobs: seq<Attempt>)
    requires jobs != []
    ensures var (before, n) := (Run(caps, t, jobs[..|jobs| - 1]), |jobs| - 1);
      && Run(caps, t, jobs).0 == Step(caps, before.0, jobs[n]).0
      && Run(caps, t, jobs).1 == before.1 + [Step(caps, before.0, jobs[n]).1]
      && |before.1| == n
  {
  }

  /** The answers to `n` jobs of which the first `room` are accepted and the others refused with an error. */
  function Answers(n: nat, room: nat, e: DbError): (r: seq<Reply>)
    ensures |r| == n && forall i :: 0 <= i < n ==> r[i] == if i < room then Ok("ok") else Err(e)
  {
    seq(n, i => if i < room then Ok("ok") else Err(e))
  }

  lemma AnswersSnoc(n: nat, room: nat, was: nat, e: DbError)
    requires was == Min(room, n)
    ensures Answers(n + 1, Min(room, n + 1), e) == Answers(n, was, e) + [if n < room then Ok("ok") else Err(e)]
  {
  }

  lemma MessagesSnoc(jobs: seq<Attempt>, n: nat, project: string)
    requires AllPut(jobs, project) && n < |jobs|
    ensures PlainPut(jobs[n], project)
    ensures Messages(jobs[..n + 1], project) == Messages(jobs[..n], project) + [MailRow(project, jobs[n].op.verb.body, false)]
  {
    assert jobs[..n + 1] == jobs[..n] + [jobs[n]];
  }

  /**
   Of the messages put for a project none of which is taken, just those are accepted that find room: where `w` wait, the first
   `caps.mailbox - w`, in order, and every later one is refused.
   */
  lemma {:induction false} MailboxTakesItsCap(caps: Caps, t: Tables, jobs: seq<Attempt>, project: string)
    requires AllPut(jobs, project) && Room(caps, t, project) && WaitingFor(t.mail, project) <= caps.mailbox
    ensures var room := Min(caps.mailbox - WaitingFor(t.mail, project), |jobs|);
      && Run(caps, t, jobs) == (t.(mail := t.mail + Messages(jobs[..room], project)), Answers(|jobs|, room, MailboxFull))
      && WaitingFor(Run(caps, t, jobs).0.mail, project) == WaitingFor(t.mail, project) + room
      && Room(caps, Run(caps, t, jobs).0, project)
  {
    hide *;
    var free := caps.mailbox - WaitingFor(t.mail, project);
    if jobs == [] {
      NoJobs(caps, t, jobs, project);
    } else {
      var n := |jobs| - 1;
      AllPutPrefix(jobs, n, project);
      MailboxTakesItsCap(caps, t, jobs[..n], project);
      RunLast(caps, t, jobs);
      var was := Min(free, n);
      MinCases(free, n);
      PrefixOfPrefix(jobs, was, n);
      AllPutPrefix(jobs, was, project);
      AnswersSnoc(n, free, was, MailboxFull);
      NextPut(caps, t, Run(caps, t, jobs[..n]).0, jobs, project, free);
    }
  }

  lemma MinCases(a: int, n: int)
    ensures Min(a, n) == (if a < n then a else n) && Min(a, n + 1) == if a < n + 1 then a else n + 1
  {
  }

  lemma PrefixOfPrefix<T>(jobs: seq<T>, was: nat, n: nat)
    requires was <= n <= |jobs|
    ensures jobs[..n][..was] == jobs[..was] && jobs[..|jobs|] == jobs
  {
  }

  lemma AllPutPrefix(jobs: seq<Attempt>, n: nat, project: string)
    requires AllPut(jobs, project) && n <= |jobs|
    ensures AllPut(jobs[..n], project) && (n < |jobs| ==> PlainPut(jobs[n], project))
  {
  }

  lemma NoJobs(caps: Caps, t: Tables, jobs: seq<Attempt>, project: string)
    requires jobs == [] && WaitingFor(t.mail, project) <= caps.mailbox
    ensures AllPut(jobs, project) && Min(caps.mailbox - WaitingFor(t.mail, project), 0) == 0
    ensures Run(caps, t, jobs) == (t, []) && t.(mail := t.mail + Messages(jobs[..0], project)) == t
    ensures Answers(0, 0, MailboxFull) == []
  {
  }

  /** The next message, `free` of which found room at the start. */
  lemma NextPut(caps: Caps, t: Tables, mid: Tables, jobs: seq<Attempt>, project: string, free: nat)
    requires jobs != [] && AllPut(jobs, project) && Room(caps, mid, project)
    requires var was := Min(free, |jobs| - 1);
      && mid == t.(mail := t.mail + Messages(jobs[..was], project))
      && WaitingFor(mid.mail, project) == caps.mailbox - free + was
    ensures var n := |jobs| - 1;
      var (t', r) := Step(caps, mid, jobs[n]);
      var room := Min(free, n + 1);
      && r == (if n < free then Ok("ok") else Err(MailboxFull))
      && t' == t.(mail := t.mail + Messages(jobs[..room], project))
      && WaitingFor(t'.mail, project) == caps.mailbox - free + room
      && Room(caps, t', project)
  {
    var n := |jobs| - 1;
    hide Step, WaitingFor, Room, Messages;
    OnePut(caps, mid, jobs[n], project);
    if n < free {
      OneMoreWaits(caps, mid, jobs[n].op.verb.body, project);
      MessagesSnoc(jobs, n, project);
      Regroup(t.mail, Messages(jobs[..n], project), [MailRow(project, jobs[n].op.verb.body, false)]);
    }
  }

  lemma Regroup<T>(a: seq<T>, b: seq<T>, c: seq<T>)
    ensures (a + b) + c == a + (b + c)
  {
  }

  /** From empty tables: the first `caps.mailbox` messages of a project are accepted and every later one is refused. */
  lemma EmptyMailboxTakesItsCap(caps: Caps, jobs: seq<Attempt>, project: string)
    requires AllPut(jobs, project) && caps.projects > 0
    ensures forall i :: 0 <= i < |jobs| ==> Run(caps, EMPTY, jobs).1[i] == if i < caps.mailbox then Ok("ok") else Err(MailboxFull)
  {
    hide *;
    EmptyHasRoom(caps, project);
    MailboxTakesItsCap(caps, EMPTY, jobs, project);
    MinCases(caps.mailbox, |jobs| - 1);
  }

  lemma EmptyHasRoom(caps: Caps, project: string)
    requires caps.projects > 0
    ensures Room(caps, EMPTY, project) && WaitingFor(EMPTY.mail, project) == 0
  {
    assert Projects(EMPTY) == {};
  }

  /** A key set for the project, unexpiring, tried without a fault and without a write id. */
  predicate PlainSet(a: Attempt, project: string) {
    a.op.Proj? && a.op.verb.Set? && a.op.project == project && a.op.writeId == "" && a.fault.None? && a.op.verb.expires.None?
  }

  /** Every job sets a key of its own. */
  predicate AllSetApart(jobs: seq<Attempt>, project: string) {
    && (forall i :: 0 <= i < |jobs| ==> PlainSet(jobs[i], project))
    && forall i, j :: 0 <= i < j < |jobs| ==> PlainSet(jobs[i], project) && PlainSet(jobs[j], project) && jobs[i].op.verb.key != jobs[j].op.verb.key
  }

  /** Tables with unexpiring keys of one project and no mail. */
  predicate OnlyKeys(t: Tables, project: string) {
    t == EMPTY.(kv := t.kv) && forall k :: k in t.kv ==> k.0 == project && t.kv[k].expires.None?
  }

  lemma OneProject(t: Tables, project: string, now: int)
    requires OnlyKeys(t, project)
    ensures ActiveKeys(t, project, now) == t.kv.Keys
    ensures if t.kv.Keys == {} then Projects(t) == {} else Holds(t, project)
    ensures forall key :: ActiveKey(t, project, key, now) <==> (project, key) in t.kv
  {
    if k :| k in t.kv {
      assert (project, k.1) in t.kv;
    }
  }

  lemma OneNewKey(caps: Caps, t: Tables, a: Attempt, project: string)
    requires PlainSet(a, project) && OnlyKeys(t, project) && caps.projects > 0 && (project, a.op.verb.key) !in t.kv
    ensures var (t', r) := Step(caps, t, a);
      if |t.kv.Keys| < caps.kv
      then r == Ok("ok") && OnlyKeys(t', project) && t'.kv.Keys == t.kv.Keys + {(project, a.op.verb.key)}
      else r == Err(TooManyKeys) && t' == t
  {
    OneProject(t, project, a.now);
    hide Step, Projects, Holds, ActiveKey, ActiveKeys;
    SetIsAnswered(caps, t, a);
    assert ExpiresAs(None, None);
  }

  function KeyOf(a: Attempt): Key
    requires a.op.Proj? && a.op.verb.Set?
  {
    (a.op.project, a.op.verb.key)
  }

  /** The key is one of those the first `n` jobs set. */
  predicate SetBy(jobs: seq<Attempt>, n: int, k: Key) {
    exists i :: 0 <= i < n <= |jobs| && jobs[i].op.Proj? && jobs[i].op.verb.Set? && KeyOf(jobs[i]) == k
  }

  /** From empty tables: the first `caps.kv` keys of a project are set and every later one is refused. */
  lemma {:induction false} EmptyProjectTakesItsKeys(caps: Caps, jobs: seq<Attempt>, project: string)
    requires AllSetApart(jobs, project) && caps.projects > 0
    ensures var (t, replies) := Run(caps, EMPTY, jobs);
      var room := Min(caps.kv, |jobs|);
      && OnlyKeys(t, project) && |t.kv.Keys| == room
      && (forall k :: k in t.kv <==> SetBy(jobs, room, k))
      && replies == Answers(|jobs|, room, TooManyKeys)
  {
    if jobs != [] {
      hide Step, Run, OnlyKeys;
      var n := |jobs| - 1;
      EmptyProjectTakesItsKeys(caps, jobs[..n], project);
      var mid, was := Run(caps, EMPTY, jobs[..n]).0, Min(caps.kv, n);
      RunLast(caps, EMPTY, jobs);
      LastIsApart(jobs, project, was);
      OneNewKey(caps, mid, jobs[n], project);
      AnswersSnoc(n, caps.kv, was, TooManyKeys);
      SetByPrefix(jobs, was);
      hide SetBy, AllSetApart, Answers;
    }
  }

  lemma LastIsApart(jobs: seq<Attempt>, project: string, was: nat)
    requires AllSetApart(jobs, project) && jobs != [] && was <= |jobs| - 1
    ensures PlainSet(jobs[|jobs| - 1], project) && !SetBy(jobs, was, KeyOf(jobs[|jobs| - 1]))
    ensures forall k :: SetBy(jobs, |jobs|, k) <==> SetBy(jobs, |jobs| - 1, k) || k == KeyOf(jobs[|jobs| - 1])
  {
  }

  lemma SetByPrefix(jobs: seq<Attempt>, was: nat)
    requires jobs != [] && was <= |jobs| - 1
    ensures forall k :: SetBy(jobs[..|jobs| - 1], was, k) <==> SetBy(jobs, was, k)
  {
    var init := jobs[..|jobs| - 1];
    assert forall i :: 0 <= i < |init| ==> init[i] == jobs[i];
  }

  // ---- the changes of a snapshot

  /** The records of some changes, with the ids after `last`. */
  function Records(last: nat, ns: string, changes: seq<string>): (r: seq<EdgeRow>)
    ensures |r| == |changes| && forall i :: 0 <= i < |r| ==> r[i] == EdgeRow(last + 1 + i, ns, changes[i])
  {
    seq(|changes|, i requires 0 <= i < |changes| => EdgeRow(last + 1 + i, ns, changes[i]))
  }

  /** The changes of a snapshot are appended in order, each with its text and the next id. */
  lemma {:induction false} ChangesAreAppended(edges: seq<EdgeRow>, ns: string, changes: seq<string>)
    ensures AddEdges(edges, ns, changes) == edges + Records(MaxId(edges), ns, changes)
    ensures MaxId(AddEdges(edges, ns, changes)) == MaxId(edges) + |changes|
  {
    if changes == [] {
      assert edges + Records(MaxId(edges), ns, changes) == edges;
    } else {
      var n := |changes| - 1;
      ChangesAreAppended(edges, ns, changes[..n]);
      hide *;
      LastChange(edges, ns, changes);
      RecordsSnoc(MaxId(edges), ns, changes);
      Regroup(edges, Records(MaxId(edges), ns, changes[..n]), [EdgeRow(MaxId(edges) + 1 + n, ns, changes[n])]);
    }
  }

  lemma LastChange(edges: seq<EdgeRow>, ns: string, changes: seq<string>)
    requires changes != []
    ensures var before := AddEdges(edges, ns, changes[..|changes| - 1]);
      && AddEdges(edges, ns, changes) == before + [EdgeRow(MaxId(before) + 1, ns, changes[|changes| - 1])]
      && MaxId(AddEdges(edges, ns, changes)) == MaxId(before) + 1
  {
    var before, all := AddEdges(edges, ns, changes[..|changes| - 1]), AddEdges(edges, ns, changes);
    hide AddEdges;
    assert all[..|all| - 1] == before;
  }

  lemma RecordsSnoc(last: nat, ns: string, changes: seq<string>)
    requires changes != []
    ensures var n := |changes| - 1;
      Records(last, ns, changes) == Records(last, ns, changes[..n]) + [EdgeRow(last + 1 + n, ns, changes[n])]
  {
  }

  lemma {:induction false} TrimKeepsAbove(edges: seq<EdgeRow>, ns: string, cut: int, from: nat)
    requires from <= |edges| && forall i :: from <= i < |edges| ==> edges[i].id > cut
    ensures var kept := Trim(edges, ns, cut);
      |kept| >= |edges| - from && kept[|kept| - (|edges| - from)..] == edges[from..]
  {
    if from < |edges| {
      var n := |edges| - 1;
      TrimKeepsAbove(edges[..n], ns, cut, from);
      assert edges[from..] == edges[..n][from..] + [edges[n]];
    } else {
      assert edges[from..] == [];
    }
  }

  lemma {:induction false} MaxIdOfNs(edges: seq<EdgeRow>, ns: string)
    ensures MaxId(OfNs(edges, ns)) <= MaxId(edges)
  {
    if edges != [] {
      var n := |edges| - 1;
      MaxIdOfNs(edges[..n], ns);
      var before := OfNs(edges[..n], ns);
      if edges[n].ns == ns {
        assert (before + [edges[n]])[..|before|] == before;
      } else {
        assert before + [] == before;
      }
    }
  }

  /** A snapshot with no more changes than its cap leaves them all, in order, at the end of the change records. */
  lemma SnapshotChangesAreKept(t: Tables, op: Op)
    requires op.Rt? && |op.changes| <= op.edgeCap
    ensures var edges := RtApply(t, op).edges;
      |edges| >= |op.changes| && edges[|edges| - |op.changes|..] == Records(MaxId(t.edges), op.ns, op.changes)
  {
    hide *;
    var all, added := AddEdges(t.edges, op.ns, op.changes), Records(MaxId(t.edges), op.ns, op.changes);
    ChangesAreAppended(t.edges, op.ns, op.changes);
    MaxIdOfNs(all, op.ns);
    var cut := MaxId(OfNs(all, op.ns)) - op.edgeCap;
    AddedAreAbove(t.edges, MaxId(t.edges), op.ns, op.changes, cut);
    TrimKeepsAbove(all, op.ns, cut, |t.edges|);
    EdgesAfter(t, op);
  }

  lemma EdgesAfter(t: Tables, op: Op)
    requires op.Rt?
    ensures var all := AddEdges(t.edges, op.ns, op.changes); RtApply(t, op).edges == Trim(all, op.ns, MaxId(OfNs(all, op.ns)) - op.edgeCap)
  {
  }

  lemma AddedAreAbove(edges: seq<EdgeRow>, last: nat, ns: string, changes: seq<string>, cut: int)
    requires cut <= last
    ensures var all := edges + Records(last, ns, changes);
      && |all| == |edges| + |changes| && all[|edges|..] == Records(last, ns, changes)
      && forall i :: |edges| <= i < |all| ==> all[i].id > cut
  {
  }
}
