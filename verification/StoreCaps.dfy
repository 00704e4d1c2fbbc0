/** The caps on projects, pending messages and active keys, and the clock readings under which the last one holds. */
module StoreCaps {
  import opened Prelude
  import opened HotTables
  import opened StoreLaws

  ghost predicate KeysWithin(caps: Caps, t: Tables, now: int) {
    forall p :: |ActiveKeys(t, p, now)| <= caps.kv
  }

  ghost predicate WithinCaps(caps: Caps, t: Tables, now: int) {
    && |Projects(t)| <= caps.projects
    && (forall p :: |Pending(t.mail, p)| <= caps.mailbox)
    && KeysWithin(caps, t, now)
  }

  predicate ClockForward(jobs: seq<Attempt>, from: int) {
    && (forall i :: 0 <= i < |jobs| ==> from <= jobs[i].now)
    && forall i, j :: 0 <= i < j < |jobs| ==> jobs[i].now <= jobs[j].now
  }

  lemma {:induction false} SubsetSize<T>(a: set<T>, b: set<T>)
    requires a <= b
    ensures |a| <= |b|
  {
    if a != {} {
      var x :| x in a;
      SubsetSize(a - {x}, b - {x});
    }
  }

  lemma {:induction false} PendingWaits(mail: seq<MailRow>, p: string)
    ensures Pending(mail, p) != [] <==> exists m :: m in mail && Waiting(m, p)
  {
    if mail != [] {
      PendingWaits(mail[1..], p);
      assert forall m :: m in mail <==> m == mail[0] || m in mail[1..];
    }
  }

  lemma ProjectsBound(caps: Caps, t: Tables, t': Tables, p: string)
    requires |Projects(t)| <= caps.projects && ProjectAllowed(caps, t, p)
    requires forall k :: k in t'.kv ==> k in t.kv || k.0 == p
    requires forall m :: m in t'.mail && !m.consumed ==> m in t.mail || m.project == p
    ensures |Projects(t')| <= caps.projects
  {
    assert Projects(t') <= Projects(t) + {p};
    SubsetSize(Projects(t'), Projects(t) + {p});
    if p in Projects(t) {
      assert Projects(t) + {p} == Projects(t);
    }
  }

  lemma ProjectsShrink(t: Tables, t': Tables)
    requires t'.kv == t.kv
    requires forall m :: m in t'.mail && !m.consumed ==> m in t.mail
    ensures |Projects(t')| <= |Projects(t)|
  {
    assert Projects(t') <= Projects(t);
    SubsetSize(Projects(t'), Projects(t));
  }

  lemma StepBoundsProjects(caps: Caps, t: Tables, a: Attempt)
    requires |Projects(t)| <= caps.projects
    ensures |Projects(Step(caps, t, a).0)| <= caps.projects
  {
    var (t', r) := Step(caps, t, a);
    KvStep(caps, t, a);
    MailStep(caps, t, a);
    StepAllowed(caps, t, a);
    if Applied(t, a, r) && !a.op.verb.Take? {
      ProjectsBound(caps, t, t', a.op.project);
    } else {
      ProjectsShrink(t, t');
    }
  }

  lemma StepBoundsMail(caps: Caps, t: Tables, a: Attempt, p: string)
    requires |Pending(t.mail, p)| <= caps.mailbox
    ensures |Pending(Step(caps, t, a).0.mail, p)| <= caps.mailbox
  {
    var (t', r) := Step(caps, t, a);
    StepConservesMail(caps, t, a, p);
    StepAllowed(caps, t, a);
    var before, put, taken, after := Pending(t.mail, p), PutBy(t, a, r, p), TakenBy(t, a, r, p), Pending(t'.mail, p);
    assert |before + put| == |taken + after|;
  }

  lemma KeysBound(now: set<Key>, now': set<Key>, k: Key, cap: nat)
    requires now' <= now + {k} && |now| <= cap && (k in now || |now| < cap)
    ensures |now'| <= cap
  {
    SubsetSize(now', now + {k});
    if k in now {
      assert now + {k} == now;
    }
  }

  lemma StepBoundsKeys(caps: Caps, t: Tables, a: Attempt, p: string, before: int)
    requires |ActiveKeys(t, p, before)| <= caps.kv && before <= a.now
    ensures |ActiveKeys(Step(caps, t, a).0, p, a.now)| <= caps.kv
  {
    var (t', r) := Step(caps, t, a);
    var now, now' := ActiveKeys(t, p, a.now), ActiveKeys(t', p, a.now);
    SubsetSize(now, ActiveKeys(t, p, before));
    KvStep(caps, t, a);
    StepAllowed(caps, t, a);
    if IsSet(a.op) && Applied(t, a, r) && a.op.project == p {
      assert now' <= now + {SetKey(a.op)};
      KeysBound(now, now', SetKey(a.op), caps.kv);
    } else {
      assert now' <= now;
      SubsetSize(now', now);
    }
  }

  /** Neither the cap on projects nor that on a project's pending messages is ever passed, whatever the clock reads. */
  lemma {:induction false} ProjectAndMailCapsHold(caps: Caps, t: Tables, jobs: seq<Attempt>)
    requires |Projects(t)| <= caps.projects
    requires forall p :: |Pending(t.mail, p)| <= caps.mailbox
    ensures |Projects(Run(caps, t, jobs).0)| <= caps.projects
    ensures forall p :: |Pending(Run(caps, t, jobs).0.mail, p)| <= caps.mailbox
  {
    if jobs != [] {
      var n := |jobs| - 1;
      ProjectAndMailCapsHold(caps, t, jobs[..n]);
      var mid := Run(caps, t, jobs[..n]).0;
      StepBoundsProjects(caps, mid, jobs[n]);
      forall p ensures |Pending(Run(caps, t, jobs).0.mail, p)| <= caps.mailbox {
        StepBoundsMail(caps, mid, jobs[n], p);
      }
    }
  }

  /** A project's active keys stay within their cap under a clock that does not go back. */
  lemma {:induction false} KeyCapHolds(caps: Caps, t: Tables, jobs: seq<Attempt>, now: int)
    requires KeysWithin(caps, t, now) && ClockForward(jobs, now)
    ensures KeysWithin(caps, Run(caps, t, jobs).0, if jobs == [] then now else jobs[|jobs| - 1].now)
  {
    if jobs != [] {
      var n := |jobs| - 1;
      KeyCapHolds(caps, t, jobs[..n], now);
      var mid := Run(caps, t, jobs[..n]).0;
      forall p ensures |ActiveKeys(Run(caps, t, jobs).0, p, jobs[n].now)| <= caps.kv {
        StepBoundsKeys(caps, mid, jobs[n], p, if n == 0 then now else jobs[n - 1].now);
      }
    }
  }

  // ---- exactly when the key cap holds

  predicate AtReadings(jobs: seq<Attempt>, readings: seq<I64>) {
    |jobs| == |readings| && forall i :: 0 <= i < |jobs| ==> jobs[i].now == readings[i]
  }

  predicate NeverBack(readings: seq<I64>) {
    forall i, j :: 0 <= i < j < |readings| ==> readings[i] <= readings[j]
  }

  /** After every job, at its clock reading, no project has more active keys than the cap. */
  ghost predicate KeyCapKept(caps: Caps, t: Tables, jobs: seq<Attempt>) {
    forall i :: 0 <= i < |jobs| ==> KeysWithin(caps, Run(caps, t, jobs[..i + 1]).0, jobs[i].now)
  }

  const CROWDED := ""

  function KeyName(n: nat): Key {
    (CROWDED, seq(n, _ => 'k'))
  }

  /** `n` keys of one project, all expiring at `e`. */
  function Crowd(n: nat, e: I64): map<Key, KvRow> {
    if n == 0 then map[] else Crowd(n - 1, e)[KeyName(n - 1) := KvRow("", Some(e))]
  }

  lemma {:induction false} CrowdSize(n: nat, e: I64)
    ensures |Crowd(n, e).Keys| == n
    ensures forall k :: k in Crowd(n, e) ==> k.0 == CROWDED && |k.1| < n && Crowd(n, e)[k] == KvRow("", Some(e))
  {
    if n > 0 {
      CrowdSize(n - 1, e);
      assert |KeyName(n - 1).1| == n - 1;
      assert Crowd(n, e).Keys == Crowd(n - 1, e).Keys + {KeyName(n - 1)};
    }
  }

  function Crowded(caps: Caps, e: I64): Tables {
    EMPTY.(kv := Crowd(caps.kv, e))
  }

  lemma CrowdedKeys(caps: Caps, e: I64, p: string, now: int)
    ensures ActiveKeys(Crowded(caps, e), p, now) == if p == CROWDED && now < e then Crowd(caps.kv, e).Keys else {}
    ensures caps.kv > 0 ==> Projects(Crowded(caps, e)) == {CROWDED}
  {
    CrowdSize(caps.kv, e);
    if caps.kv > 0 {
      assert KeyName(caps.kv - 1) in Crowd(caps.kv, e);
    }
  }

  lemma CrowdedIsWithin(caps: Caps, e: I64, now: int)
    requires caps.kv > 0 && caps.projects > 0
    ensures WithinCaps(caps, Crowded(caps, e), now)
  {
    CrowdSize(caps.kv, e);
    CrowdedKeys(caps, e, CROWDED, now);
    forall p ensures |ActiveKeys(Crowded(caps, e), p, now)| <= caps.kv {
      CrowdedKeys(caps, e, p, now);
    }
  }

  /** One more key, asked for at job `i`; barriers before and after. */
  function OneMore(caps: Caps, readings: seq<I64>, i: nat): seq<Attempt> {
    seq(|readings|, j requires 0 <= j < |readings| =>
      Attempt(if j == i then Proj(CROWDED, "", Set(KeyName(caps.kv).1, "", None)) else Barrier, readings[j], None))
  }

  lemma {:induction false} BarriersPass(caps: Caps, t: Tables, jobs: seq<Attempt>)
    requires forall i :: 0 <= i < |jobs| ==> jobs[i].op.Barrier? && jobs[i].fault.None?
    ensures Run(caps, t, jobs).0 == t
  {
    if jobs != [] {
      BarriersPass(caps, t, jobs[..|jobs| - 1]);
    }
  }

  lemma OneMoreIsStored(caps: Caps, readings: seq<I64>, i: nat)
    requires caps.kv > 0 && i + 1 < |readings|
    ensures var t := Crowded(caps, readings[i]);
      Run(caps, t, OneMore(caps, readings, i)[..i + 2]).0 == t.(kv := t.kv[KeyName(caps.kv) := KvRow("", None)])
  {
    var t, jobs := Crowded(caps, readings[i]), OneMore(caps, readings, i);
    BarriersPass(caps, t, jobs[..i]);
    CrowdedKeys(caps, readings[i], CROWDED, readings[i]);
    var t' := Step(caps, t, jobs[i]).0;
    assert t' == t.(kv := t.kv[KeyName(caps.kv) := KvRow("", None)]);
    assert Step(caps, t', jobs[i + 1]).0 == t';
    RunPrefix(caps, t, jobs, i);
    RunPrefix(caps, t, jobs, i + 1);
  }

  /**
   Any positive cap is passed when the clock goes back: a full project's keys, expired at one reading, leave room for another, and at the
   next reading they are active again.
   */
  lemma ClockBackPassesCap(caps: Caps, readings: seq<I64>, i: nat)
    requires caps.kv > 0 && i + 1 < |readings| && readings[i + 1] < readings[i]
    ensures var t, jobs := Crowded(caps, readings[i]), OneMore(caps, readings, i);
      AtReadings(jobs, readings) && |ActiveKeys(Run(caps, t, jobs[..i + 2]).0, CROWDED, readings[i + 1])| == caps.kv + 1
  {
    var t, jobs := Crowded(caps, readings[i]), OneMore(caps, readings, i);
    var crowd := Crowd(caps.kv, readings[i]);
    OneMoreIsStored(caps, readings, i);
    CrowdSize(caps.kv, readings[i]);
    hide Run, Step;
    assert |KeyName(caps.kv).1| == caps.kv;
    assert ActiveKeys(Run(caps, t, jobs[..i + 2]).0, CROWDED, readings[i + 1]) == crowd.Keys + {KeyName(caps.kv)};
  }

  lemma {:induction false} GoesBackAtOnce(readings: seq<I64>, i: nat, j: nat) returns (k: nat)
    requires i < j < |readings| && readings[j] < readings[i]
    ensures k + 1 < |readings| && readings[k + 1] < readings[k]
    decreases j - i
  {
    if j == i + 1 || readings[j] < readings[j - 1] {
      k := j - 1;
    } else {
      k := GoesBackAtOnce(readings, i, j - 1);
    }
  }

  lemma ForwardKeepsCap(caps: Caps, t: Tables, jobs: seq<Attempt>, readings: seq<I64>)
    requires NeverBack(readings) && AtReadings(jobs, readings)
    requires jobs != [] ==> WithinCaps(caps, t, readings[0])
    ensures KeyCapKept(caps, t, jobs)
  {
    forall i | 0 <= i < |jobs| ensures KeysWithin(caps, Run(caps, t, jobs[..i + 1]).0, jobs[i].now) {
      KeyCapHolds(caps, t, jobs[..i + 1], readings[0]);
    }
  }

  lemma BackBreaksCap(caps: Caps, readings: seq<I64>) returns (t: Tables, jobs: seq<Attempt>)
    requires caps.kv > 0 && caps.projects > 0 && !NeverBack(readings)
    ensures AtReadings(jobs, readings) && (jobs != [] ==> WithinCaps(caps, t, readings[0])) && !KeyCapKept(caps, t, jobs)
  {
    var i, j :| 0 <= i < j < |readings| && readings[j] < readings[i];
    var k := GoesBackAtOnce(readings, i, j);
    t, jobs := Crowded(caps, readings[k]), OneMore(caps, readings, k);
    CrowdedIsWithin(caps, readings[k], readings[0]);
    ClockBackPassesCap(caps, readings, k);
    assert !KeysWithin(caps, Run(caps, t, jobs[..k + 1 + 1]).0, jobs[k + 1].now);
  }

  /**
   For any positive caps and any clock readings: every run at those readings, from any tables within all caps, keeps the key cap after
   each of its jobs if and only if the readings never go back.
   */
  lemma KeyCapExactly(caps: Caps, readings: seq<I64>)
    requires caps.kv > 0 && caps.projects > 0
    ensures NeverBack(readings) <==>
      forall t: Tables, jobs: seq<Attempt> :: AtReadings(jobs, readings) && (jobs != [] ==> WithinCaps(caps, t, readings[0])) ==>
        KeyCapKept(caps, t, jobs)
  {
    hide KeyCapKept, WithinCaps, NeverBack;
    if NeverBack(readings) {
      forall t: Tables, jobs: seq<Attempt> | AtReadings(jobs, readings) && (jobs != [] ==> WithinCaps(caps, t, readings[0]))
        ensures KeyCapKept(caps, t, jobs)
      {
        ForwardKeepsCap(caps, t, jobs, readings);
      }
    } else {
      var t, jobs := BackBreaksCap(caps, readings);
    }
  }
}
