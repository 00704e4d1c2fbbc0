/** What the store promises over whole runs: exactly-once write ids, FIFO mailboxes, caps, exact totals, whole snapshots. */
module StoreLaws {
  import opened Prelude
  import opened HotTables

  // ---- write ids

  predicate Named(op: Op, id: string) {
    op.Proj? && id != "" && op.writeId == id
  }

  predicate ReplayAt(caps: Caps, t: Tables, jobs: seq<Attempt>, i: int)
    requires 0 <= i < |jobs|
  {
    Replay(Run(caps, t, jobs[..i]).0, jobs[i].op)
  }

  /** The jobs that were not answered from the record of their id. */
  function Effective(caps: Caps, t: Tables, jobs: seq<Attempt>): seq<Attempt> {
    if jobs == [] then [] else
      var n := |jobs| - 1;
      Effective(caps, t, jobs[..n]) + (if ReplayAt(caps, t, jobs, n) then [] else [jobs[n]])
  }

  function EffectiveReplies(caps: Caps, t: Tables, jobs: seq<Attempt>): seq<Reply> {
    if jobs == [] then [] else
      var n := |jobs| - 1;
      EffectiveReplies(caps, t, jobs[..n]) + (if ReplayAt(caps, t, jobs, n) then [] else [Run(caps, t, jobs).1[n]])
  }

  /** Running any jobs is running them without the replays: same tables, same replies to the jobs that are left. */
  lemma {:induction false} ReplaysCanBeDropped(caps: Caps, t: Tables, jobs: seq<Attempt>)
    ensures Run(caps, t, Effective(caps, t, jobs)) == (Run(caps, t, jobs).0, EffectiveReplies(caps, t, jobs))
  {
    if jobs != [] {
      var n := |jobs| - 1;
      ReplaysCanBeDropped(caps, t, jobs[..n]);
      var kept := Effective(caps, t, jobs[..n]);
      if ReplayAt(caps, t, jobs, n) {
        assert kept + [] == kept;
        assert EffectiveReplies(caps, t, jobs[..n]) + [] == EffectiveReplies(caps, t, jobs[..n]);
      } else {
        assert (kept + [jobs[n]])[..|kept|] == kept;
      }
    }
  }

  lemma RunPrefix(caps: Caps, t: Tables, jobs: seq<Attempt>, i: nat)
    requires i <= |jobs|
    ensures Run(caps, t, jobs[..i]).1 == Run(caps, t, jobs).1[..i]
    ensures i < |jobs| ==> (Run(caps, t, jobs[..i + 1]).0, Run(caps, t, jobs).1[i]) == Step(caps, Run(caps, t, jobs[..i]).0, jobs[i])
  {
    assert jobs == jobs[..i] + jobs[i..];
    RunAppend(caps, t, jobs[..i], jobs[i..]);
    if i < |jobs| {
      assert jobs == jobs[..i + 1] + jobs[i + 1..] && jobs[..i + 1][..i] == jobs[..i];
      RunAppend(caps, t, jobs[..i + 1], jobs[i + 1..]);
    }
  }

  lemma StepKeepsRecords(caps: Caps, t: Tables, a: Attempt, id: string)
    requires id in t.applied
    ensures var t' := Step(caps, t, a).0; id in t'.applied && t'.applied[id] == t.applied[id]
  {
    if a.op.Proj? {
      match a.op.verb
      case Put(_) =>
      case Take =>
      case Set(_, _, _) =>
    }
  }

  lemma StepRecords(caps: Caps, t: Tables, a: Attempt, id: string)
    requires Named(a.op, id)
    ensures var (t', r) := Step(caps, t, a);
      && (r.Ok? ==> id in t'.applied && t'.applied[id] == r.value)
      && (r.Err? ==> t' == t)
      && (id in t.applied ==> t' == t && r == if a.fault.Some? then Err(a.fault.value) else Ok(t.applied[id]))
  {
  }

  lemma {:induction false} RecordsStay(caps: Caps, t: Tables, jobs: seq<Attempt>, i: nat, j: nat, id: string)
    requires i <= j <= |jobs|
    requires id in Run(caps, t, jobs[..i]).0.applied
    ensures id in Run(caps, t, jobs[..j]).0.applied
    ensures Run(caps, t, jobs[..j]).0.applied[id] == Run(caps, t, jobs[..i]).0.applied[id]
    decreases j
  {
    if i < j {
      RecordsStay(caps, t, jobs, i, j - 1, id);
      RunPrefix(caps, t, jobs, j - 1);
      StepKeepsRecords(caps, Run(caps, t, jobs[..j - 1]).0, jobs[j - 1], id);
    }
  }

  /**
   Once a job with an id was answered Ok, every later job with that id changes nothing and is answered the same, unless storage
   itself fails under it.
   */
  lemma FirstAnswerStands(caps: Caps, t: Tables, jobs: seq<Attempt>, i: nat, j: nat, id: string)
    requires i < j < |jobs| && Named(jobs[i].op, id) && Named(jobs[j].op, id)
    requires Run(caps, t, jobs).1[i].Ok?
    ensures Run(caps, t, jobs[..j + 1]).0 == Run(caps, t, jobs[..j]).0
    ensures Run(caps, t, jobs).1[j] == if jobs[j].fault.Some? then Err(jobs[j].fault.value) else Run(caps, t, jobs).1[i]
  {
    RunPrefix(caps, t, jobs, i);
    StepRecords(caps, Run(caps, t, jobs[..i]).0, jobs[i], id);
    RecordsStay(caps, t, jobs, i + 1, j, id);
    RunPrefix(caps, t, jobs, j);
    StepRecords(caps, Run(caps, t, jobs[..j]).0, jobs[j], id);
  }

  /** An id is recorded exactly when it was before or a job of that name was answered Ok: a refused job may be tried again. */
  lemma {:induction false} RecordedExactly(caps: Caps, t: Tables, jobs: seq<Attempt>, id: string)
    requires id != ""
    ensures id in Run(caps, t, jobs).0.applied <==>
      id in t.applied || exists i :: 0 <= i < |jobs| && Named(jobs[i].op, id) && Run(caps, t, jobs).1[i].Ok?
  {
    if jobs != [] {
      var n := |jobs| - 1;
      var init := jobs[..n];
      RecordedExactly(caps, t, init, id);
      var before, now := Run(caps, t, init), Run(caps, t, jobs);
      assert forall i :: 0 <= i < n ==> init[i] == jobs[i] && before.1[i] == now.1[i];
      if Named(jobs[n].op, id) {
        StepRecords(caps, before.0, jobs[n], id);
      } else {
        OthersDoNotRecord(caps, before.0, jobs[n], id);
      }
      if id in now.0.applied && id !in before.0.applied {
        assert Named(jobs[n].op, id) && now.1[n].Ok?;
      }
      if i :| 0 <= i < |jobs| && Named(jobs[i].op, id) && now.1[i].Ok? && i < n {
        assert Named(init[i].op, id) && before.1[i].Ok?;
      }
    }
  }

  lemma OthersDoNotRecord(caps: Caps, t: Tables, a: Attempt, id: string)
    requires id != "" && !Named(a.op, id)
    ensures id in Step(caps, t, a).0.applied <==> id in t.applied
  {
    if a.op.Proj? {
      match a.op.verb
      case Put(_) =>
      case Take =>
      case Set(_, _, _) =>
    }
  }

  // ---- the mailbox

  predicate FirstTimeOn(t: Tables, a: Attempt, r: Reply, project: string) {
    Applied(t, a, r) && a.op.project == project
  }

  /** What one job adds to the accepted messages of a project. */
  function PutBy(t: Tables, a: Attempt, r: Reply, project: string): seq<string> {
    if FirstTimeOn(t, a, r, project) && a.op.verb.Put? then [a.op.verb.body] else []
  }

  /** What one job hands out of a project's mailbox: a Take that found a message. */
  function TakenBy(t: Tables, a: Attempt, r: Reply, project: string): seq<string> {
    if FirstTimeOn(t, a, r, project) && a.op.verb.Take? && Next(t.mail, project).Some? then [r.value] else []
  }

  function Accepted(caps: Caps, t: Tables, jobs: seq<Attempt>, project: string): seq<string> {
    if jobs == [] then [] else
      var n := |jobs| - 1;
      Accepted(caps, t, jobs[..n], project) + PutBy(Run(caps, t, jobs[..n]).0, jobs[n], Run(caps, t, jobs).1[n], project)
  }

  function Taken(caps: Caps, t: Tables, jobs: seq<Attempt>, project: string): seq<string> {
    if jobs == [] then [] else
      var n := |jobs| - 1;
      Taken(caps, t, jobs[..n], project) + TakenBy(Run(caps, t, jobs[..n]).0, jobs[n], Run(caps, t, jobs).1[n], project)
  }

  lemma {:induction false} PendingAppend(a: seq<MailRow>, b: seq<MailRow>, project: string)
    ensures Pending(a + b, project) == Pending(a, project) + Pending(b, project)
  {
    if a == [] {
      assert a + b == b;
    } else {
      assert (a + b)[1..] == a[1..] + b;
      PendingAppend(a[1..], b, project);
    }
  }

  lemma {:induction false} NonePending(mail: seq<MailRow>, project: string)
    requires forall i :: 0 <= i < |mail| ==> !Waiting(mail[i], project)
    ensures Pending(mail, project) == []
  {
    if mail != [] {
      NonePending(mail[1..], project);
    }
  }

  /** Consuming the oldest pending message takes it off the front of its project and off no other. */
  lemma ConsumeNext(mail: seq<MailRow>, project: string, other: string)
    requires Next(mail, project).Some?
    ensures var id := Next(mail, project).value;
      var mail' := mail[id := mail[id].(consumed := true)];
      Pending(mail, other) == (if other == project then [mail[id].body] else []) + Pending(mail', other)
  {
    hide Pending, Next;
    var id := Next(mail, project).value;
    var row := mail[id].(consumed := true);
    var mail' := mail[id := row];
    assert mail == mail[..id] + ([mail[id]] + mail[id + 1..]);
    assert mail' == mail[..id] + ([row] + mail[id + 1..]);
    PendingAround(mail[..id], mail[id], mail[id + 1..], other);
    PendingAround(mail[..id], row, mail[id + 1..], other);
    if other == project {
      NonePending(mail[..id], project);
    }
  }

  lemma PendingAround(a: seq<MailRow>, row: MailRow, b: seq<MailRow>, project: string)
    ensures Pending(a + ([row] + b), project)
      == Pending(a, project) + ((if Waiting(row, project) then [row.body] else []) + Pending(b, project))
  {
    PendingAppend(a, [row] + b, project);
    PendingAppend([row], b, project);
  }

  lemma VerbConservesMail(mail: seq<MailRow>, p: string, verb: Verb, project: string)
    ensures Pending(mail, project) + (if p == project && verb.Put? then [verb.body] else [])
      == (if p == project && verb.Take? && Next(mail, p).Some? then [mail[Next(mail, p).value].body] else [])
         + Pending(MailAfter(mail, p, verb), project)
  {
    match verb
    case Put(body) =>
      PendingAppend(mail, [MailRow(p, body, false)], project);
    case Take =>
      if Next(mail, p).Some? {
        ConsumeNext(mail, p, project);
      }
    case Set(_, _, _) =>
  }

  lemma StepConservesMail(caps: Caps, t: Tables, a: Attempt, project: string)
    ensures var (t', r) := Step(caps, t, a);
      Pending(t.mail, project) + PutBy(t, a, r, project) == TakenBy(t, a, r, project) + Pending(t'.mail, project)
  {
    MailStep(caps, t, a);
    if a.op.Proj? {
      VerbConservesMail(t.mail, a.op.project, a.op.verb, project);
    }
  }

  /**
   First in, first out, nothing lost or invented: what waited before followed by what was accepted is what was handed out followed
   by what waits now, each project on its own, through refusals, replays and storage errors.
   */
  lemma {:induction false} MailboxIsFifo(caps: Caps, t: Tables, jobs: seq<Attempt>, project: string)
    ensures Pending(t.mail, project) + Accepted(caps, t, jobs, project)
      == Taken(caps, t, jobs, project) + Pending(Run(caps, t, jobs).0.mail, project)
  {
    if jobs != [] {
      var n := |jobs| - 1;
      MailboxIsFifo(caps, t, jobs[..n], project);
      var mid, r := Run(caps, t, jobs[..n]).0, Run(caps, t, jobs).1[n];
      StepConservesMail(caps, mid, jobs[n], project);
      Regroup(Pending(t.mail, project), Accepted(caps, t, jobs[..n], project), PutBy(mid, jobs[n], r, project),
              Taken(caps, t, jobs[..n], project), Pending(mid.mail, project),
              TakenBy(mid, jobs[n], r, project), Pending(Run(caps, t, jobs).0.mail, project));
    }
  }

  lemma Regroup<T>(a: seq<T>, b: seq<T>, c: seq<T>, d: seq<T>, e: seq<T>, f: seq<T>, g: seq<T>)
    requires a + b == d + e && e + c == f + g
    ensures a + (b + c) == (d + f) + g
  {
    assert a + (b + c) == (a + b) + c == d + (e + c);
  }

  // ---- the impact ledger

  function Count(events: seq<Combo>, c: Combo): nat {
    if events == [] then 0 else Count(events[..|events| - 1], c) + (if events[|events| - 1] == c then 1 else 0)
  }

  ghost predicate TotalsExact(t: Tables) {
    forall c :: Count(t.impact, c) == if c in t.totals then t.totals[c] else 0
  }

  /** Insert and count are one job: a total is the number of events of its combination, whatever failed on the way. */
  lemma {:induction false} TotalsStayExact(caps: Caps, t: Tables, jobs: seq<Attempt>)
    requires TotalsExact(t)
    ensures TotalsExact(Run(caps, t, jobs).0)
  {
    if jobs != [] {
      var n := |jobs| - 1;
      TotalsStayExact(caps, t, jobs[..n]);
      var mid, a := Run(caps, t, jobs[..n]).0, jobs[n];
      var t' := Step(caps, mid, a).0;
      if a.op.Impact? {
        assert (mid.impact + [a.op.combo])[..|mid.impact|] == mid.impact;
      } else {
        OthersKeepLedger(caps, mid, a);
      }
    }
  }

  lemma OthersKeepLedger(caps: Caps, t: Tables, a: Attempt)
    requires !a.op.Impact?
    ensures var t' := Step(caps, t, a).0; t'.impact == t.impact && t'.totals == t.totals
  {
    if a.op.Proj? {
      match a.op.verb
      case Put(_) =>
      case Take =>
      case Set(_, _, _) =>
    }
  }

  // ---- realtime state

  function LastRow(rows: seq<RtRow>, key: string): RtBody
    requires key in RowKeys(rows)
  {
    var n := |rows| - 1;
    if rows[n].key == key then rows[n].row else
      assert key in RowKeys(rows[..n]) by { var r :| r in rows && r.key == key; assert r in rows[..n]; }
      LastRow(rows[..n], key)
  }

  lemma {:induction false} PutRowsAt(m: map<Key, RtBody>, ns: string, rows: seq<RtRow>, k: Key)
    ensures var m' := PutRows(m, ns, rows);
      if k.0 == ns && k.1 in RowKeys(rows) then k in m' && m'[k] == LastRow(rows, k.1)
      else (k in m' <==> k in m) && (k in m ==> m'[k] == m[k])
  {
    if rows != [] {
      var n := |rows| - 1;
      PutRowsAt(m, ns, rows[..n], k);
      assert rows == rows[..n] + [rows[n]];
      assert RowKeys(rows) == RowKeys(rows[..n]) + {rows[n].key};
    }
  }

  /** A snapshot replaces its namespace whole, the last row of a repeated key winning, and touches no other namespace. */
  lemma SnapshotReplacesNamespace(t: Tables, op: Op, k: Key)
    requires op.Rt?
    ensures var t' := RtApply(t, op);
      if k.0 == op.ns
      then (k in t'.entities <==> k.1 in RowKeys(op.rows)) && (k in t'.entities ==> t'.entities[k] == LastRow(op.rows, k.1))
      else (k in t'.entities <==> k in t.entities) && (k in t.entities ==> t'.entities[k] == t.entities[k])
  {
    PutRowsAt(DropStale(t.entities, op.ns, RowKeys(op.rows)), op.ns, op.rows, k);
  }

  predicate IdsAscend(edges: seq<EdgeRow>) {
    forall i, j :: 0 <= i < j < |edges| ==> edges[i].id < edges[j].id
  }

  lemma {:induction false} MaxIdBounds(edges: seq<EdgeRow>)
    ensures forall e :: e in edges ==> e.id <= MaxId(edges)
    ensures edges != [] ==> exists e :: e in edges && e.id == MaxId(edges)
  {
    if edges != [] {
      var n := |edges| - 1;
      MaxIdBounds(edges[..n]);
      assert edges == edges[..n] + [edges[n]];
      if MaxId(edges) != edges[n].id {
        var e :| e in edges[..n] && e.id == MaxId(edges[..n]);
        assert e in edges;
      }
    }
  }

  lemma {:induction false} OfNsMembers(edges: seq<EdgeRow>, ns: string)
    ensures forall e :: e in OfNs(edges, ns) <==> e in edges && e.ns == ns
    ensures IdsAscend(edges) ==> IdsAscend(OfNs(edges, ns))
  {
    if edges != [] {
      var n := |edges| - 1;
      OfNsMembers(edges[..n], ns);
      assert edges == edges[..n] + [edges[n]];
      if IdsAscend(edges) {
        var kept := OfNs(edges[..n], ns);
        forall i | 0 <= i < |kept| ensures kept[i].id < edges[n].id {
          assert kept[i] in kept;
          var j :| 0 <= j < n && edges[j] == kept[i];
        }
      }
    }
  }

  function Above(edges: seq<EdgeRow>, cut: int): seq<EdgeRow> {
    if edges == [] then [] else
      var last := edges[|edges| - 1];
      Above(edges[..|edges| - 1], cut) + (if last.id <= cut then [] else [last])
  }

  lemma OfNsSnoc(edges: seq<EdgeRow>, last: EdgeRow, ns: string)
    ensures OfNs(edges + [last], ns) == OfNs(edges, ns) + (if last.ns == ns then [last] else [])
  {
    assert (edges + [last])[..|edges|] == edges;
  }

  lemma AboveSnoc(edges: seq<EdgeRow>, last: EdgeRow, cut: int)
    ensures Above(edges + [last], cut) == Above(edges, cut) + (if last.id <= cut then [] else [last])
  {
    assert (edges + [last])[..|edges|] == edges;
  }

  /** What trimming a namespace keeps of it: the rows within `cap` ids of its newest. */
  lemma {:induction false} TrimOfNs(edges: seq<EdgeRow>, ns: string, cut: int, other: string)
    ensures OfNs(Trim(edges, ns, cut), other) == if other == ns then Above(OfNs(edges, ns), cut) else OfNs(edges, other)
  {
    if edges != [] {
      var n := |edges| - 1;
      var last := edges[n];
      TrimOfNs(edges[..n], ns, cut, other);
      OfNsSnoc(Trim(edges[..n], ns, cut), last, other);
      AboveSnoc(OfNs(edges[..n], ns), last, cut);
      assert Trim(edges[..n], ns, cut) + [] == Trim(edges[..n], ns, cut);
      assert OfNs(edges[..n], other) + [] == OfNs(edges[..n], other);
      assert Above(OfNs(edges[..n], ns), cut) + [] == Above(OfNs(edges[..n], ns), cut);
    }
  }

  /** `kept` is a tail of `all`, and just its ids are above the cut. */
  predicate TailAbove(all: seq<EdgeRow>, kept: seq<EdgeRow>, cut: int) {
    && |kept| <= |all| && kept == all[|all| - |kept|..]
    && (forall i :: 0 <= i < |all| - |kept| ==> all[i].id <= cut)
    && forall e :: e in kept ==> e.id > cut
  }

  lemma {:induction false} AllAtOrBelow(edges: seq<EdgeRow>, cut: int)
    requires forall e :: e in edges ==> e.id <= cut
    ensures Above(edges, cut) == []
  {
    if edges != [] {
      AllAtOrBelow(edges[..|edges| - 1], cut);
    }
  }

  /** Of rows in id order, the ones above a cut are a tail. */
  lemma {:induction false} AboveIsTail(edges: seq<EdgeRow>, cut: int)
    requires IdsAscend(edges)
    ensures TailAbove(edges, Above(edges, cut), cut)
  {
    if edges != [] {
      var n := |edges| - 1;
      AboveIsTail(edges[..n], cut);
      if edges[n].id <= cut {
        AllAtOrBelow(edges[..n], cut);
        assert Above(edges, cut) == [] + [];
      } else {
        assert Above(edges, cut) == Above(edges[..n], cut) + [edges[n]];
        TailAboveSnoc(edges, Above(edges[..n], cut), cut);
      }
    }
  }

  lemma TailAboveSnoc(edges: seq<EdgeRow>, kept: seq<EdgeRow>, cut: int)
    requires edges != [] && edges[|edges| - 1].id > cut && TailAbove(edges[..|edges| - 1], kept, cut)
    ensures TailAbove(edges, kept + [edges[|edges| - 1]], cut)
  {
    var n := |edges| - 1;
    assert edges[n - |kept|..] == edges[..n][n - |kept|..] + [edges[n]];
    forall i | 0 <= i < n - |kept| ensures edges[i].id <= cut {
      assert edges[i] == edges[..n][i];
    }
  }

  lemma {:induction false} AscendingSpread(edges: seq<EdgeRow>, i: nat, j: nat)
    requires IdsAscend(edges) && i <= j < |edges|
    ensures edges[j].id - edges[i].id >= j - i
    decreases j - i
  {
    if i < j {
      AscendingSpread(edges, i, j - 1);
    }
  }

  /** A newest part of at most `cap` rows; the newest `cap` just when those lie within `cap` ids. */
  predicate NewestKept(mine: seq<EdgeRow>, kept: seq<EdgeRow>, cap: nat) {
    && |kept| <= cap && |kept| <= |mine| && kept == mine[|mine| - |kept|..]
    && (cap > 0 && |mine| >= cap ==> (|kept| == cap <==> mine[|mine| - 1].id - mine[|mine| - cap].id < cap))
    && (cap > 0 && mine != [] ==> kept != [])
  }

  lemma TailIsNewest(mine: seq<EdgeRow>, kept: seq<EdgeRow>, cap: nat)
    requires IdsAscend(mine) && mine != [] && TailAbove(mine, kept, mine[|mine| - 1].id - cap)
    ensures NewestKept(mine, kept, cap)
  {
    var n := |mine| - 1;
    if kept != [] {
      assert kept[0] in kept && kept[0] == mine[|mine| - |kept|];
      AscendingSpread(mine, |mine| - |kept|, n);
    }
    if |kept| < cap <= |mine| {
      assert mine[|mine| - cap].id <= mine[n].id - cap;
    }
  }

  /**
   Trimming keeps a newest part of the namespace's change records, of at most `cap` rows. It keeps exactly the newest `cap` if and
   only if the oldest of those is within `cap` ids of the newest: ids are shared by all namespaces, so rows of other namespaces
   written between them cost the trimmed one some of its own.
   */
  lemma TrimKeepsNewest(edges: seq<EdgeRow>, ns: string, cap: nat)
    requires IdsAscend(edges)
    ensures NewestKept(OfNs(edges, ns), OfNs(TrimEdges(edges, ns, cap), ns), cap)
  {
    var mine := OfNs(edges, ns);
    assert OfNs(TrimEdges(edges, ns, cap), ns) == Above(mine, MaxId(mine) - cap) by {
      TrimOfNs(edges, ns, MaxId(mine) - cap, ns);
    }
    assert IdsAscend(mine) by {
      OfNsMembers(edges, ns);
    }
    AboveIsNewest(mine, cap);
  }

  lemma AboveIsNewest(mine: seq<EdgeRow>, cap: nat)
    requires IdsAscend(mine)
    ensures NewestKept(mine, Above(mine, MaxId(mine) - cap), cap)
  {
    AboveIsTail(mine, MaxId(mine) - cap);
    if mine != [] {
      NewestHasMaxId(mine);
      TailIsNewest(mine, Above(mine, MaxId(mine) - cap), cap);
    }
  }

  lemma NewestHasMaxId(edges: seq<EdgeRow>)
    requires IdsAscend(edges) && edges != []
    ensures edges[|edges| - 1].id == MaxId(edges)
  {
    MaxIdBounds(edges);
    var e :| e in edges && e.id == MaxId(edges);
    var i :| 0 <= i < |edges| && edges[i] == e;
  }

  lemma TrimLeavesOthers(edges: seq<EdgeRow>, ns: string, cap: int, other: string)
    requires other != ns
    ensures OfNs(TrimEdges(edges, ns, cap), other) == OfNs(edges, other)
  {
    TrimOfNs(edges, ns, MaxId(OfNs(edges, ns)) - cap, other);
  }

  lemma NextIdIsAbove(edges: seq<EdgeRow>, i: nat)
    requires i < |edges|
    ensures edges[i].id < MaxId(edges) + 1
  {
    MaxIdBounds(edges);
    assert edges[i] in edges;
  }

  lemma AppendAscends(edges: seq<EdgeRow>, last: EdgeRow)
    requires IdsAscend(edges) && last.id == MaxId(edges) + 1
    ensures IdsAscend(edges + [last])
  {
    forall i | 0 <= i < |edges| ensures edges[i].id < last.id {
      NextIdIsAbove(edges, i);
    }
  }

  lemma {:induction false} AddEdgesAscends(edges: seq<EdgeRow>, ns: string, changes: seq<string>)
    requires IdsAscend(edges)
    ensures IdsAscend(AddEdges(edges, ns, changes))
  {
    if changes != [] {
      var n := |changes| - 1;
      var before := AddEdges(edges, ns, changes[..n]);
      AddEdgesAscends(edges, ns, changes[..n]);
      var last := EdgeRow(MaxId(before) + 1, ns, changes[n]);
      assert AddEdges(edges, ns, changes) == before + [last];
      AppendAscends(before, last);
    }
  }

  lemma {:induction false} TrimAscends(edges: seq<EdgeRow>, ns: string, cut: int)
    requires IdsAscend(edges)
    ensures IdsAscend(Trim(edges, ns, cut))
    ensures forall e :: e in Trim(edges, ns, cut) ==> e in edges
  {
    if edges != [] {
      var n := |edges| - 1;
      TrimAscends(edges[..n], ns, cut);
      var kept := Trim(edges[..n], ns, cut);
      forall i | 0 <= i < |kept| ensures kept[i].id < edges[n].id {
        assert kept[i] in kept;
        var j :| 0 <= j < n && edges[..n][j] == kept[i];
      }
    }
  }

  /** Change records stay in id order over any run, so after a snapshot its namespace holds a newest part of at most `edgeCap`. */
  lemma {:induction false} EdgesStayInOrder(caps: Caps, t: Tables, jobs: seq<Attempt>)
    requires IdsAscend(t.edges)
    ensures IdsAscend(Run(caps, t, jobs).0.edges)
  {
    if jobs != [] {
      var n := |jobs| - 1;
      EdgesStayInOrder(caps, t, jobs[..n]);
      var mid, op := Run(caps, t, jobs[..n]).0, jobs[n].op;
      if op.Rt? {
        AddEdgesAscends(mid.edges, op.ns, op.changes);
        var added := AddEdges(mid.edges, op.ns, op.changes);
        TrimAscends(added, op.ns, MaxId(OfNs(added, op.ns)) - op.edgeCap);
      } else {
        OthersKeepEdges(caps, mid, jobs[n]);
      }
    }
  }

  lemma OthersKeepEdges(caps: Caps, t: Tables, a: Attempt)
    requires !a.op.Rt?
    ensures Step(caps, t, a).0.edges == t.edges
  {
    if a.op.Proj? {
      match a.op.verb
      case Put(_) =>
      case Take =>
      case Set(_, _, _) =>
    }
  }
}
