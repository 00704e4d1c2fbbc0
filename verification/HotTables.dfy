/**
 The tables of hot.db and what one queued write does to them: the meaning of a job as a function on table values, and the
 statements the writer runs one by one inside the job's savepoint.
 */
module HotTables {
  import opened Prelude

  /** A key-value item's primary key: the project and the key within it. */
  type Key = (string, string)

  datatype DbError = TooManyProjects | MailboxFull | TooManyKeys | Sql(code: int)

  /** The expiry is a signed 64-bit column. */
  datatype KvRow = KvRow(value: string, expires: Option<I64>)

  /** A row's id is its position: rows are only appended, and consuming one marks it. */
  datatype MailRow = MailRow(project: string, body: string, consumed: bool)

  datatype Combo = Combo(kind: string, check: string, reason: string, project: string)

  datatype RtBody = RtBody(body: string, sig: string, observed: int)
  datatype RtRow = RtRow(key: string, row: RtBody)
  datatype EdgeRow = EdgeRow(id: nat, ns: string, change: string)

  datatype Tables = Tables(
    kv: map<Key, KvRow>,
    mail: seq<MailRow>,
    applied: map<string, string>,
    impact: seq<Combo>,
    totals: map<Combo, nat>,
    entities: map<Key, RtBody>,
    edges: seq<EdgeRow>)

  const EMPTY: Tables := Tables(map[], [], map[], [], map[], map[], [])

  datatype Verb = Put(body: string) | Take | Set(key: string, value: string, expires: Option<U64>)

  datatype Op =
    | Barrier
    | Impact(combo: Combo)
    | Rt(ns: string, rows: seq<RtRow>, changes: seq<string>, edgeCap: int)
    | Proj(project: string, writeId: string, verb: Verb)

  datatype Caps = Caps(projects: nat, mailbox: nat, kv: nat)

  type Reply = Result<string, DbError>

  // ---- what the queries answer

  predicate Active(row: KvRow, now: int) {
    row.expires.None? || row.expires.value > now
  }

  function ActiveKeys(t: Tables, project: string, now: int): set<Key> {
    set k | k in t.kv && k.0 == project && Active(t.kv[k], now)
  }

  /** The projects holding a key, expired or not, or a pending message. */
  function Projects(t: Tables): set<string> {
    (set k | k in t.kv :: k.0) + (set m | m in t.mail && !m.consumed :: m.project)
  }

  predicate Waiting(m: MailRow, project: string) {
    m.project == project && !m.consumed
  }

  /** The bodies of a project's pending messages, oldest first. */
  function Pending(mail: seq<MailRow>, project: string): seq<string> {
    if mail == [] then [] else
      (if Waiting(mail[0], project) then [mail[0].body] else []) + Pending(mail[1..], project)
  }

  /** The row id of a project's oldest pending message. */
  function Next(mail: seq<MailRow>, project: string): (r: Option<nat>)
    ensures r.Some? ==> r.value < |mail| && Waiting(mail[r.value], project)
    ensures r.Some? ==> forall i :: 0 <= i < r.value ==> !Waiting(mail[i], project)
    ensures r.None? ==> forall i :: 0 <= i < |mail| ==> !Waiting(mail[i], project)
  {
    if mail == [] then None
    else if Waiting(mail[0], project) then Some(0)
    else match Next(mail[1..], project)
      case None => assert forall i :: 0 < i < |mail| ==> mail[i] == mail[1..][i - 1]; None
      case Some(i) =>
        assert forall j :: 0 < j <= i ==> mail[j] == mail[1..][j - 1];
        Some(i + 1)
  }

  // ---- what a job means

  predicate Replay(t: Tables, op: Op) {
    op.Proj? && op.writeId != "" && op.writeId in t.applied
  }

  predicate KnownProject(t: Tables, project: string) {
    project in Projects(t)
  }

  /** A write may not start a partition past the cap. */
  predicate ProjectAllowed(caps: Caps, t: Tables, project: string) {
    KnownProject(t, project) || |Projects(t)| < caps.projects
  }

  function ProjApply(caps: Caps, t: Tables, project: string, verb: Verb, now: int): Result<(Tables, string), DbError> {
    match verb
    case Put(body) =>
      if !ProjectAllowed(caps, t, project) then Err(TooManyProjects)
      else if |Pending(t.mail, project)| >= caps.mailbox then Err(MailboxFull)
      else Ok((t.(mail := t.mail + [MailRow(project, body, false)]), "ok"))
    case Take =>
      (match Next(t.mail, project)
       case None => Ok((t, ""))
       case Some(id) => Ok((t.(mail := t.mail[id := t.mail[id].(consumed := true)]), t.mail[id].body)))
    case Set(key, value, expires) =>
      var k := (project, key);
      if !ProjectAllowed(caps, t, project) then Err(TooManyProjects)
      else if k !in ActiveKeys(t, project, now) && |ActiveKeys(t, project, now)| >= caps.kv then Err(TooManyKeys)
      else Ok((t.(kv := t.kv[k := StoredRow(value, expires)]), "ok"))
  }

  function StoredRow(value: string, expires: Option<U64>): KvRow {
    KvRow(value, if expires.None? then None else Some(AsI64(expires.value)))
  }

  function Bump(totals: map<Combo, nat>, c: Combo): map<Combo, nat> {
    totals[c := (if c in totals then totals[c] else 0) + 1]
  }

  function RowKeys(rows: seq<RtRow>): set<string> {
    set r | r in rows :: r.key
  }

  function DropStale(m: map<Key, RtBody>, ns: string, keep: set<string>): map<Key, RtBody> {
    map k | k in m && (k.0 != ns || k.1 in keep) :: m[k]
  }

  function PutRows(m: map<Key, RtBody>, ns: string, rows: seq<RtRow>): map<Key, RtBody> {
    if rows == [] then m else
      var init := rows[..|rows| - 1];
      PutRows(m, ns, init)[(ns, rows[|rows| - 1].key) := rows[|rows| - 1].row]
  }

  function MaxId(edges: seq<EdgeRow>): nat {
    if edges == [] then 0 else
      var m := MaxId(edges[..|edges| - 1]);
      if edges[|edges| - 1].id > m then edges[|edges| - 1].id else m
  }

  function AddEdges(edges: seq<EdgeRow>, ns: string, changes: seq<string>): seq<EdgeRow> {
    if changes == [] then edges else
      var before := AddEdges(edges, ns, changes[..|changes| - 1]);
      before + [EdgeRow(MaxId(before) + 1, ns, changes[|changes| - 1])]
  }

  function OfNs(edges: seq<EdgeRow>, ns: string): seq<EdgeRow> {
    if edges == [] then [] else
      OfNs(edges[..|edges| - 1], ns) + (if edges[|edges| - 1].ns == ns then [edges[|edges| - 1]] else [])
  }

  /** Drop the rows of `ns` whose id is at or below the namespace's largest id less the cap. */
  function Trim(edges: seq<EdgeRow>, ns: string, cut: int): seq<EdgeRow> {
    if edges == [] then [] else
      var last := edges[|edges| - 1];
      Trim(edges[..|edges| - 1], ns, cut) + (if last.ns == ns && last.id <= cut then [] else [last])
  }

  function TrimEdges(edges: seq<EdgeRow>, ns: string, cap: int): seq<EdgeRow> {
    Trim(edges, ns, MaxId(OfNs(edges, ns)) - cap)
  }

  function RtApply(t: Tables, op: Op): Tables
    requires op.Rt?
  {
    t.(entities := PutRows(DropStale(t.entities, op.ns, RowKeys(op.rows)), op.ns, op.rows),
       edges := TrimEdges(AddEdges(t.edges, op.ns, op.changes), op.ns, op.edgeCap))
  }

  function Apply(caps: Caps, t: Tables, op: Op, now: int): Result<(Tables, string), DbError> {
    match op
    case Barrier => Ok((t, ""))
    case Impact(c) => Ok((t.(impact := t.impact + [c], totals := Bump(t.totals, c)), ""))
    case Rt(_, _, _, _) => Ok((RtApply(t, op), ""))
    case Proj(project, writeId, verb) =>
      if Replay(t, op) then Ok((t, t.applied[writeId]))
      else match ProjApply(caps, t, project, verb, now)
        case Err(e) => Err(e)
        case Ok((t', v)) => Ok((if writeId == "" then t' else t'.(applied := t'.applied[writeId := v]), v))
  }

  /** One job as it was tried: the clock it read, and the storage error that stopped it, if one did. */
  datatype Attempt = Attempt(op: Op, now: int, fault: Option<DbError>)

  /** A job in its savepoint: an error of any kind leaves the tables as they were. */
  function Step(caps: Caps, t: Tables, a: Attempt): (Tables, Reply) {
    if a.fault.Some? then (t, Err(a.fault.value)) else
      match Apply(caps, t, a.op, a.now)
      case Ok((t', v)) => (t', Ok(v))
      case Err(e) => (t, Err(e))
  }

  /** Jobs one at a time, in order. */
  function Run(caps: Caps, t: Tables, jobs: seq<Attempt>): (r: (Tables, seq<Reply>))
    ensures |r.1| == |jobs|
  {
    if jobs == [] then (t, []) else
      var before := Run(caps, t, jobs[..|jobs| - 1]);
      var last := Step(caps, before.0, jobs[|jobs| - 1]);
      (last.0, before.1 + [last.1])
  }

  lemma {:induction false} RunAppend(caps: Caps, t: Tables, xs: seq<Attempt>, ys: seq<Attempt>)
    ensures Run(caps, t, xs + ys).0 == Run(caps, Run(caps, t, xs).0, ys).0
    ensures Run(caps, t, xs + ys).1 == Run(caps, t, xs).1 + Run(caps, Run(caps, t, xs).0, ys).1
  {
    if ys == [] {
      assert xs + ys == xs;
    } else {
      var init := ys[..|ys| - 1];
      RunAppend(caps, t, xs, init);
      assert (xs + ys)[..|xs + ys| - 1] == xs + init;
    }
  }

  // ---- what one step changes

  predicate IsSet(op: Op) {
    op.Proj? && op.verb.Set?
  }

  function SetKey(op: Op): Key
    requires IsSet(op)
  {
    (op.project, op.verb.key)
  }

  /** A project write that was applied, rather than refused or answered from the record of its id. */
  predicate Applied(t: Tables, a: Attempt, r: Reply) {
    a.op.Proj? && r.Ok? && !Replay(t, a.op)
  }

  /** The key-value table changes by exactly the row of an applied Set. */
  lemma KvStep(caps: Caps, t: Tables, a: Attempt)
    ensures var (t', r) := Step(caps, t, a);
      t'.kv == if IsSet(a.op) && Applied(t, a, r) then t.kv[SetKey(a.op) := StoredRow(a.op.verb.value, a.op.verb.expires)] else t.kv
  {
    if a.op.Proj? && a.fault.None? {
      match a.op.verb
      case Put(_) =>
      case Take =>
      case Set(_, _, _) =>
    }
  }

  function MailAfter(mail: seq<MailRow>, project: string, verb: Verb): seq<MailRow> {
    match verb
    case Put(body) => mail + [MailRow(project, body, false)]
    case Take =>
      (match Next(mail, project)
       case None => mail
       case Some(id) => mail[id := mail[id].(consumed := true)])
    case Set(_, _, _) => mail
  }

  /** The mailbox changes by exactly an applied Put or Take; a Take answers the body it consumed. */
  lemma MailStep(caps: Caps, t: Tables, a: Attempt)
    ensures var (t', r) := Step(caps, t, a);
      && t'.mail == (if Applied(t, a, r) then MailAfter(t.mail, a.op.project, a.op.verb) else t.mail)
      && (Applied(t, a, r) && a.op.verb.Take? ==>
            var next := Next(t.mail, a.op.project); r.value == if next.None? then "" else t.mail[next.value].body)
  {
    if a.op.Proj? && a.fault.None? {
      match a.op.verb
      case Put(_) =>
      case Take =>
      case Set(_, _, _) =>
    }
  }

  /** What the caps let through. */
  lemma StepAllowed(caps: Caps, t: Tables, a: Attempt)
    ensures var (t', r) := Step(caps, t, a);
      && (Applied(t, a, r) && !a.op.verb.Take? ==> ProjectAllowed(caps, t, a.op.project))
      && (Applied(t, a, r) && a.op.verb.Put? ==> |Pending(t.mail, a.op.project)| < caps.mailbox)
      && (Applied(t, a, r) && a.op.verb.Set? ==>
            var now := ActiveKeys(t, a.op.project, a.now); SetKey(a.op) in now || |now| < caps.kv)
  {
    if a.op.Proj? && a.fault.None? {
      match a.op.verb
      case Put(_) =>
      case Take =>
      case Set(_, _, _) =>
    }
  }

  // ---- the writer's connection

  /**
   The write connection inside a transaction. Every statement may fail; a failed statement changes nothing, but the statements of
   the same job before it have already changed the tables, which is what the job's savepoint undoes.
   */
  class Conn {
    const caps: Caps
    var work: Tables

    constructor (caps: Caps, t: Tables)
      ensures this.caps == caps && work == t
    {
      this.caps, work := caps, t;
    }

    /** What SQLite answers to the next statement: nothing, or an error of its own. */
    method Trouble() returns (fault: Option<DbError>)
      ensures fault.Some? ==> fault.value.Sql?
    {
      var bad: bool, code: int := *, *;
      fault := if bad then Some(Sql(code)) else None;
    }

    method Exec(next: Tables) returns (fault: Option<DbError>)
      modifies this`work
      ensures fault.None? ==> work == next
      ensures fault.Some? ==> fault.value.Sql? && work == old(work)
    {
      fault := Trouble();
      if fault.None? {
        work := next;
      }
    }

    /** The clock, which is free to move either way. */
    method Clock() returns (now: int)
    {
      now := *;
    }

    method CheckProject(project: string) returns (fault: Option<DbError>)
      ensures fault.None? ==> ProjectAllowed(caps, work, project)
      ensures fault.Some? && !fault.value.Sql? ==> fault.value == TooManyProjects && !ProjectAllowed(caps, work, project)
    {
      fault := Trouble();
      if fault.Some? { return; }
      var known := KnownProject(work, project);
      if !known {
        fault := Trouble();
        if fault.Some? { return; }
        if |Projects(work)| >= caps.projects {
          return Some(TooManyProjects);
        }
      }
    }

    /** The statements of one project write: a refusal or a result is the specification's, a storage error can come anywhere. */
    method RunVerb(project: string, verb: Verb, now: int) returns (r: Reply)
      modifies this`work
      ensures r.Ok? ==> ProjApply(caps, old(work), project, verb, now) == Ok((work, r.value))
      ensures r.Err? && !r.error.Sql? ==> ProjApply(caps, old(work), project, verb, now) == Err(r.error)
      ensures work.applied == old(work).applied
    {
      match verb
      case Put(body) =>
        var refused := CheckProject(project);
        if refused.Some? { return Err(refused.value); }
        var fault := Trouble();
        if fault.Some? { return Err(fault.value); }
        if |Pending(work.mail, project)| >= caps.mailbox {
          return Err(MailboxFull);
        }
        fault := Exec(work.(mail := work.mail + [MailRow(project, body, false)]));
        if fault.Some? { return Err(fault.value); }
        r := Ok("ok");
      case Take =>
        var fault := Trouble();
        if fault.Some? { return Err(fault.value); }
        match Next(work.mail, project) {
          case None => r := Ok("");
          case Some(id) =>
            var body := work.mail[id].body;
            fault := Exec(work.(mail := work.mail[id := work.mail[id].(consumed := true)]));
            if fault.Some? { return Err(fault.value); }
            r := Ok(body);
        }
      case Set(key, value, expires) =>
        var refused := CheckProject(project);
        if refused.Some? { return Err(refused.value); }
        var fault := Trouble();
        if fault.Some? { return Err(fault.value); }
        if (project, key) !in ActiveKeys(work, project, now) {
          fault := Trouble();
          if fault.Some? { return Err(fault.value); }
          if |ActiveKeys(work, project, now)| >= caps.kv {
            return Err(TooManyKeys);
          }
        }
        fault := Exec(work.(kv := work.kv[(project, key) := StoredRow(value, expires)]));
        if fault.Some? { return Err(fault.value); }
        r := Ok("ok");
    }

    /** A namespace's snapshot: drop what it no longer lists, write its rows, append its changes, trim them. */
    method RunRt(op: Op) returns (r: Reply)
      requires op.Rt?
      modifies this`work
      ensures r.Ok? ==> r.value == "" && work == RtApply(old(work), op)
      ensures r.Err? ==> r.error.Sql?
    {
      var fault := Trouble();
      if fault.Some? { return Err(fault.value); }
      ghost var t := work;
      var keep := RowKeys(op.rows);
      var stale := set k | k in work.entities && k.0 == op.ns && k.1 !in keep;
      while stale != {}
        invariant forall k :: k in stale ==> k.0 == op.ns && k.1 !in keep
        invariant work == t.(entities := work.entities)
        invariant DropStale(work.entities, op.ns, keep) == DropStale(t.entities, op.ns, keep)
        invariant forall k :: k in work.entities && k.0 == op.ns && k.1 !in keep ==> k in stale
        decreases stale
      {
        var k :| k in stale;
        stale := stale - {k};
        fault := Exec(work.(entities := work.entities - {k}));
        if fault.Some? { return Err(fault.value); }
      }
      assert work.entities == DropStale(t.entities, op.ns, keep);
      ghost var dropped := work.entities;
      for i := 0 to |op.rows|
        invariant work == t.(entities := PutRows(dropped, op.ns, op.rows[..i]))
      {
        fault := Exec(work.(entities := work.entities[(op.ns, op.rows[i].key) := op.rows[i].row]));
        if fault.Some? { return Err(fault.value); }
        assert op.rows[..i + 1][..i] == op.rows[..i];
      }
      assert op.rows[..|op.rows|] == op.rows;
      t := work;
      for i := 0 to |op.changes|
        invariant work == t.(edges := AddEdges(t.edges, op.ns, op.changes[..i]))
      {
        fault := Exec(work.(edges := work.edges + [EdgeRow(MaxId(work.edges) + 1, op.ns, op.changes[i])]));
        if fault.Some? { return Err(fault.value); }
        assert op.changes[..i + 1][..i] == op.changes[..i];
      }
      assert op.changes[..|op.changes|] == op.changes;
      fault := Exec(work.(edges := TrimEdges(work.edges, op.ns, op.edgeCap)));
      if fault.Some? { return Err(fault.value); }
      r := Ok("");
    }

    /** One job's statements. */
    method RunOp(op: Op) returns (r: Reply, now: int)
      modifies this`work
      ensures r.Ok? ==> Apply(caps, old(work), op, now) == Ok((work, r.value))
      ensures r.Err? && !r.error.Sql? ==> Apply(caps, old(work), op, now) == Err(r.error)
    {
      now := Clock();
      match op
      case Barrier => r := Ok("");
      case Impact(c) =>
        var fault := Exec(work.(impact := work.impact + [c]));
        if fault.Some? { return Err(fault.value), now; }
        fault := Exec(work.(totals := Bump(work.totals, c)));
        r := if fault.Some? then Err(fault.value) else Ok("");
      case Rt(_, _, _, _) => r := RunRt(op);
      case Proj(project, writeId, verb) =>
        if writeId != "" {
          var fault := Trouble();
          if fault.Some? { return Err(fault.value), now; }
          if writeId in work.applied {
            return Ok(work.applied[writeId]), now;
          }
        }
        r := RunVerb(project, verb, now);
        if r.Ok? && writeId != "" {
          var fault := Exec(work.(applied := work.applied[writeId := r.value]));
          if fault.Some? { return Err(fault.value), now; }
        }
    }

    /** A job in its own savepoint: released when it worked, rolled back to the saved tables otherwise. */
    method RunInSavepoint(op: Op) returns (r: Reply, a: Attempt)
      modifies this`work
      ensures a.op == op
      ensures (work, r) == Step(caps, old(work), a)
    {
      var saved := work;
      var now: int;
      r, now := RunOp(op);
      a := Attempt(op, now, if r.Err? && r.error.Sql? then Some(r.error) else None);
      if r.Err? {
        work := saved;
      }
    }
  }
}
