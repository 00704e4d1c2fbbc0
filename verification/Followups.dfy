/** The ledger of checks to be made later on the engine's own actions: one pending check per action and target, at most so many in all. */
module Followups {
  import opened Prelude

  datatype Followup = Followup(action: string, target: string, due: nat, added: nat, ctx: string)

  /** A line of the action log: a follow-up that was finished, or dropped for want of room. */
  datatype Line = Line(ts: nat, action: string, target: string, result: string)

  datatype Ledger = Ledger(pending: seq<Followup>, log: seq<Line>)

  type Key = (string, string)

  function KeyOf(f: Followup): Key {
    (f.action, f.target)
  }

  function KeysOf(fs: seq<Followup>): (r: seq<Key>)
    ensures |r| == |fs| && forall i :: 0 <= i < |r| ==> r[i] == KeyOf(fs[i])
  {
    seq(|fs|, i requires 0 <= i < |fs| => KeyOf(fs[i]))
  }

  function Expired(f: Followup, now: nat): Line {
    Line(now, f.action, f.target, "expired")
  }

  function ExpireAll(fs: seq<Followup>, now: nat): (r: seq<Line>)
    ensures |r| == |fs| && forall i :: 0 <= i < |r| ==> r[i] == Expired(fs[i], now)
  {
    seq(|fs|, i requires 0 <= i < |fs| => Expired(fs[i], now))
  }

  function Others(fs: seq<Followup>, k: Key): seq<Followup> {
    if fs == [] then [] else (if KeyOf(fs[0]) == k then [] else [fs[0]]) + Others(fs[1..], k)
  }

  function Postponed(fs: seq<Followup>, k: Key, due: nat): (r: seq<Followup>)
    ensures |r| == |fs|
    ensures forall i :: 0 <= i < |r| ==> r[i] == if KeyOf(fs[i]) == k then fs[i].(due := due) else fs[i]
  {
    seq(|fs|, i requires 0 <= i < |fs| => if KeyOf(fs[i]) == k then fs[i].(due := due) else fs[i])
  }

  /** A new follow-up; an equal one pending makes it ignored, and for want of room the oldest go. */
  function Add(l: Ledger, f: Followup, cap: nat): Ledger {
    if KeyOf(f) in KeysOf(l.pending) then l
    else
      var all := l.pending + [f];
      var over := SatSub(|all|, cap);
      Ledger(all[over..], l.log + ExpireAll(all[..over], f.added))
  }

  /** A follow-up postponed, or finished and logged. */
  function Done(l: Ledger, k: Key, result: string, retry: Option<nat>, now: nat): Ledger {
    match retry
    case Some(t) => l.(pending := Postponed(l.pending, k, t))
    case None => Ledger(Others(l.pending, k), l.log + [Line(now, k.0, k.1, result)])
  }

  /** The follow-ups whose time has come. */
  function Due(fs: seq<Followup>, now: nat): seq<Followup> {
    if fs == [] then [] else (if fs[0].due <= now then [fs[0]] else []) + Due(fs[1..], now)
  }

  class Store {
    var pending: seq<Followup>
    var log: seq<Line>

    function Now(): Ledger
      reads this
    {
      Ledger(pending, log)
    }

    constructor ()
      ensures Now() == Ledger([], [])
    {
      pending, log := [], [];
    }

    method RunAdd(f: Followup, cap: nat)
      modifies this
      ensures Now() == Add(old(Now()), f, cap)
    {
      for i := 0 to |pending|
        invariant Now() == old(Now())
        invariant forall j :: 0 <= j < i ==> KeyOf(pending[j]) != KeyOf(f)
      {
        if KeyOf(pending[i]) == KeyOf(f) {
          assert KeysOf(pending)[i] == KeyOf(f);
          return;
        }
      }
      var all, over := pending + [f], 0;
      var rest := all;
      ghost var logged := log;
      while |rest| > cap
        invariant over <= |all| && rest == all[over..]
        invariant over <= SatSub(|all|, cap)
        invariant log == logged + ExpireAll(all[..over], f.added)
      {
        log := log + [Expired(rest[0], f.added)];
        assert ExpireAll(all[..over + 1], f.added) == ExpireAll(all[..over], f.added) + [Expired(all[over], f.added)];
        rest, over := rest[1..], over + 1;
      }
      pending := rest;
    }

    method Postpone(k: Key, due: nat)
      modifies this
      ensures Now() == Ledger(Postponed(old(pending), k, due), old(log))
    {
      for i := 0 to |pending|
        invariant |pending| == |old(pending)| && log == old(log)
        invariant forall j :: 0 <= j < i ==> pending[j] == Postponed(old(pending), k, due)[j]
        invariant forall j :: i <= j < |pending| ==> pending[j] == old(pending)[j]
      {
        if KeyOf(pending[i]) == k {
          pending := pending[i := pending[i].(due := due)];
        }
      }
    }

    method Retain(k: Key)
      modifies this
      ensures Now() == Ledger(Others(old(pending), k), old(log))
    {
      var kept: seq<Followup> := [];
      for i := 0 to |pending|
        invariant Now() == old(Now())
        invariant kept + Others(pending[i..], k) == Others(pending, k)
      {
        assert pending[i..][1..] == pending[i + 1..];
        if KeyOf(pending[i]) != k {
          kept := kept + [pending[i]];
        }
      }
      pending := kept;
    }

    method RunDone(k: Key, result: string, retry: Option<nat>, now: nat)
      modifies this
      ensures Now() == Done(old(Now()), k, result, retry, now)
    {
      if retry.Some? {
        Postpone(k, retry.value);
      } else {
        Retain(k);
        log := log + [Line(now, k.0, k.1, result)];
      }
    }

    method RunDue(now: nat) returns (due: seq<Followup>)
      ensures due == Due(pending, now)
    {
      due := [];
      for i := 0 to |pending|
        invariant due + Due(pending[i..], now) == Due(pending, now)
      {
        assert pending[i..][1..] == pending[i + 1..];
        if pending[i].due <= now {
          due := due + [pending[i]];
        }
      }
    }
  }

  // ---- runs

  datatype Op = AddOp(f: Followup) | DoneOp(k: Key, result: string, retry: Option<nat>, now: nat)

  function Apply(l: Ledger, op: Op, cap: nat): Ledger {
    match op
    case AddOp(f) => Add(l, f, cap)
    case DoneOp(k, result, retry, now) => Done(l, k, result, retry, now)
  }

  function Run(ops: seq<Op>, cap: nat): Ledger {
    if ops == [] then Ledger([], []) else Apply(Run(ops[..|ops| - 1], cap), ops[|ops| - 1], cap)
  }

  /** What an operation takes in, drops for want of room, and finishes. */
  function Accepts(l: Ledger, op: Op): multiset<Key> {
    if op.AddOp? && KeyOf(op.f) !in KeysOf(l.pending) then multiset{KeyOf(op.f)} else multiset{}
  }

  function Drops(l: Ledger, op: Op, cap: nat): multiset<Key> {
    if op.AddOp? && KeyOf(op.f) !in KeysOf(l.pending)
    then multiset(KeysOf((l.pending + [op.f])[..SatSub(|l.pending| + 1, cap)])) else multiset{}
  }

  function Finishes(l: Ledger, op: Op): multiset<Key> {
    if op.DoneOp? && op.retry.None? && op.k in KeysOf(l.pending) then multiset{op.k} else multiset{}
  }

  function AllAccepted(ops: seq<Op>, cap: nat): multiset<Key> {
    if ops == [] then multiset{} else
      var n := |ops| - 1;
      AllAccepted(ops[..n], cap) + Accepts(Run(ops[..n], cap), ops[n])
  }

  function AllDropped(ops: seq<Op>, cap: nat): multiset<Key> {
    if ops == [] then multiset{} else
      var n := |ops| - 1;
      AllDropped(ops[..n], cap) + Drops(Run(ops[..n], cap), ops[n], cap)
  }

  function AllFinished(ops: seq<Op>, cap: nat): multiset<Key> {
    if ops == [] then multiset{} else
      var n := |ops| - 1;
      AllFinished(ops[..n], cap) + Finishes(Run(ops[..n], cap), ops[n])
  }

  ghost predicate Distinct(fs: seq<Followup>) {
    forall i, j :: 0 <= i < j < |fs| ==> KeyOf(fs[i]) != KeyOf(fs[j])
  }

  lemma {:induction false} OthersKeep(fs: seq<Followup>, k: Key)
    requires Distinct(fs)
    ensures Distinct(Others(fs, k)) && |Others(fs, k)| <= |fs| && forall f :: f in Others(fs, k) ==> f in fs
  {
    if fs != [] {
      var rest := Others(fs[1..], k);
      OthersKeep(fs[1..], k);
      forall i | 0 <= i < |rest| ensures KeyOf(rest[i]) != KeyOf(fs[0]) {
        assert rest[i] in fs[1..];
      }
    }
  }

  /** Taking a key out of distinct follow-ups takes out the one of that key, if there is one. */
  lemma {:induction false} OthersCount(fs: seq<Followup>, k: Key)
    requires Distinct(fs)
    ensures multiset(KeysOf(fs)) == multiset(KeysOf(Others(fs, k))) + if k in KeysOf(fs) then multiset{k} else multiset{}
  {
    hide KeysOf, Distinct;
    if fs == [] {
      NothingPending();
    } else {
      DistinctTail(fs);
      var rest := Others(fs[1..], k);
      OthersCount(fs[1..], k);
      KeysCons(fs[0], fs[1..]);
      assert fs == [fs[0]] + fs[1..];
      if KeyOf(fs[0]) != k {
        KeysCons(fs[0], rest);
      } else {
        assert Others(fs, k) == rest;
        KeyIsNew(fs[0], fs[1..]);
      }
    }
  }

  lemma DistinctTail(fs: seq<Followup>)
    requires Distinct(fs) && fs != []
    ensures Distinct(fs[1..])
  {
  }

  lemma KeyIsNew(f: Followup, fs: seq<Followup>)
    requires Distinct([f] + fs)
    ensures KeyOf(f) !in KeysOf(fs)
  {
    forall i | 0 <= i < |fs| ensures KeysOf(fs)[i] != KeyOf(f) {
      assert ([f] + fs)[0] == f && ([f] + fs)[i + 1] == fs[i];
    }
  }

  lemma KeysCons(f: Followup, fs: seq<Followup>)
    ensures KeysOf([f] + fs) == [KeyOf(f)] + KeysOf(fs)
  {
  }

  lemma KeysSplit(fs: seq<Followup>, n: nat)
    requires n <= |fs|
    ensures KeysOf(fs) == KeysOf(fs[..n]) + KeysOf(fs[n..])
  {
  }

  lemma DistinctParts(fs: seq<Followup>, f: Followup, n: nat)
    requires Distinct(fs) && KeyOf(f) !in KeysOf(fs) && n <= |fs| + 1
    ensures Distinct((fs + [f])[n..]) && KeysOf(fs + [f]) == KeysOf(fs) + [KeyOf(f)]
  {
    forall i | 0 <= i < |fs| ensures KeyOf((fs + [f])[i]) != KeyOf(f) {
      assert KeysOf(fs)[i] == KeyOf(fs[i]);
    }
  }

  lemma AddConserves(l: Ledger, f: Followup, cap: nat)
    requires Distinct(l.pending) && |l.pending| <= cap
    ensures var l' := Add(l, f, cap);
      && Distinct(l'.pending) && |l'.pending| <= cap
      && multiset(KeysOf(l.pending)) + Accepts(l, AddOp(f)) == multiset(KeysOf(l'.pending)) + Drops(l, AddOp(f), cap)
  {
    hide KeysOf, Distinct, ExpireAll;
    if KeyOf(f) !in KeysOf(l.pending) {
      var over := SatSub(|l.pending| + 1, cap);
      DistinctParts(l.pending, f, over);
      KeysSplit(l.pending + [f], over);
    }
  }

  lemma DoneConserves(l: Ledger, k: Key, result: string, retry: Option<nat>, now: nat)
    requires Distinct(l.pending)
    ensures var l' := Done(l, k, result, retry, now);
      && Distinct(l'.pending) && |l'.pending| <= |l.pending|
      && multiset(KeysOf(l.pending)) == multiset(KeysOf(l'.pending)) + Finishes(l, DoneOp(k, result, retry, now))
  {
    if retry.Some? {
      assert KeysOf(Postponed(l.pending, k, retry.value)) == KeysOf(l.pending);
    } else {
      OthersKeep(l.pending, k);
      OthersCount(l.pending, k);
    }
  }

  /**
   Over any run, no action and target has two follow-ups pending, no more than the cap are, and what was accepted is what is pending,
   what was dropped for want of room and what was finished.
   */
  lemma {:induction false} LedgerConserves(ops: seq<Op>, cap: nat)
    ensures var l := Run(ops, cap);
      && Distinct(l.pending) && |l.pending| <= cap
      && AllAccepted(ops, cap) == multiset(KeysOf(l.pending)) + AllDropped(ops, cap) + AllFinished(ops, cap)
  {
    hide KeysOf, Add, Done, Accepts, Drops, Finishes, Distinct;
    if ops == [] {
      NothingPending();
    } else {
      var n := |ops| - 1;
      LedgerConserves(ops[..n], cap);
      var l := Run(ops[..n], cap);
      OtherKinds(l, ops[n], cap);
      match ops[n] {
        case AddOp(f) => AddConserves(l, f, cap);
        case DoneOp(k, result, retry, now) => DoneConserves(l, k, result, retry, now);
      }
      var l' := Run(ops, cap);
      Moves(multiset(KeysOf(l.pending)), multiset(KeysOf(l'.pending)), AllDropped(ops[..n], cap), AllFinished(ops[..n], cap),
            Accepts(l, ops[n]), Drops(l, ops[n], cap), Finishes(l, ops[n]));
    }
  }

  lemma Moves(p: multiset<Key>, p': multiset<Key>, d: multiset<Key>, f: multiset<Key>,
              took: multiset<Key>, dropped: multiset<Key>, done: multiset<Key>)
    requires p + took == p' + dropped + done
    ensures (p + d + f) + took == p' + (d + dropped) + (f + done)
  {
    assert (p + d + f) + took == (p + took) + d + f;
  }

  lemma NothingPending()
    ensures Distinct([]) && KeysOf([]) == []
  {
  }

  lemma OtherKinds(l: Ledger, op: Op, cap: nat)
    ensures op.AddOp? ==> Finishes(l, op) == multiset{}
    ensures op.DoneOp? ==> Accepts(l, op) == multiset{} && Drops(l, op, cap) == multiset{}
  {
  }

  /** A follow-up for want of room is dropped only after every older one: what stays pending is the newest. */
  lemma OldestGoFirst(l: Ledger, f: Followup, cap: nat)
    requires KeyOf(f) !in KeysOf(l.pending)
    ensures var l' := Add(l, f, cap);
      && |l'.pending| == Min(|l.pending| + 1, cap)
      && l'.pending == (l.pending + [f])[|l.pending| + 1 - |l'.pending|..]
      && |l'.log| - |l.log| == |l.pending| + 1 - |l'.pending|
  {
  }

  function FinishCalls(ops: seq<Op>): nat {
    if ops == [] then 0 else
      var op := ops[|ops| - 1];
      FinishCalls(ops[..|ops| - 1]) + if op.DoneOp? && op.retry.None? then 1 else 0
  }

  /** Every finish is logged, whether or not its follow-up was pending: the log's lines count the drops and the finish calls. */
  lemma {:induction false} LogCountsCalls(ops: seq<Op>, cap: nat)
    ensures |Run(ops, cap).log| == |AllDropped(ops, cap)| + FinishCalls(ops)
  {
    if ops != [] {
      LogCountsCalls(ops[..|ops| - 1], cap);
      LogGrows(Run(ops[..|ops| - 1], cap), ops[|ops| - 1], cap);
    }
  }

  lemma LogGrows(l: Ledger, op: Op, cap: nat)
    ensures |Apply(l, op, cap).log| == |l.log| + |Drops(l, op, cap)| + if op.DoneOp? && op.retry.None? then 1 else 0
  {
    hide Postponed, Others;
  }

  lemma {:induction false} DueMembers(fs: seq<Followup>, now: nat, f: Followup)
    ensures f in Due(fs, now) <==> f in fs && f.due <= now
  {
    if fs != [] {
      DueMembers(fs[1..], now, f);
      assert f in fs <==> f == fs[0] || f in fs[1..];
    }
  }

  /** A follow-up that is postponed is due again just from its new time on; every other one is due as before. */
  lemma PostponeMovesDue(l: Ledger, k: Key, retry: nat, now: nat, f: Followup)
    requires f in l.pending
    ensures var due := Due(Done(l, k, "", Some(retry), 0).pending, now);
      && (KeyOf(f) == k ==> (f.(due := retry) in due <==> retry <= now))
      && (KeyOf(f) != k ==> (f in due <==> f in Due(l.pending, now)))
  {
    var after := Postponed(l.pending, k, retry);
    var i :| 0 <= i < |l.pending| && l.pending[i] == f;
    assert after[i] == if KeyOf(f) == k then f.(due := retry) else f;
    DueMembers(after, now, after[i]);
    DueMembers(l.pending, now, f);
  }

  // ---- the log line by line

  lemma {:induction false} LogOnlyGrows(ops: seq<Op>, n: nat, cap: nat)
    requires n <= |ops|
    ensures |Run(ops[..n], cap).log| <= |Run(ops, cap).log|
    ensures Run(ops, cap).log[..|Run(ops[..n], cap).log|] == Run(ops[..n], cap).log
  {
    if n == |ops| {
      assert ops[..n] == ops;
    } else {
      var m := |ops| - 1;
      assert ops[..m][..n] == ops[..n];
      LogOnlyGrows(ops[..m], n, cap);
      StepKeepsLog(Run(ops[..m], cap), ops[m], cap);
      var (a, b, c) := (Run(ops[..n], cap).log, Run(ops[..m], cap).log, Run(ops, cap).log);
      hide Apply, Run;
      assert c[..|a|] == c[..|b|][..|a|];
    }
  }

  lemma StepKeepsLog(l: Ledger, op: Op, cap: nat)
    ensures |l.log| <= |Apply(l, op, cap).log| && Apply(l, op, cap).log[..|l.log|] == l.log
  {
    hide Others, Postponed;
  }

  /** Over any run, every finish stands in the log from its moment on: when, what it was and how it ended. */
  lemma FinishIsLogged(ops: seq<Op>, n: nat, cap: nat)
    requires n < |ops| && ops[n].DoneOp? && ops[n].retry.None?
    ensures var at := |Run(ops[..n], cap).log|;
      at < |Run(ops, cap).log| && Run(ops, cap).log[at] == Line(ops[n].now, ops[n].k.0, ops[n].k.1, ops[n].result)
  {
    LogOnlyGrows(ops, n + 1, cap);
    assert ops[..n + 1][..n] == ops[..n];
    var (at, part) := (|Run(ops[..n], cap).log|, Run(ops[..n + 1], cap).log);
    assert part[at] == Line(ops[n].now, ops[n].k.0, ops[n].k.1, ops[n].result);
    assert Run(ops, cap).log[..|part|][at] == Run(ops, cap).log[at];
  }

  /** And every follow-up dropped for want of room, the oldest first, as expired at the time of the one that took its room. */
  lemma DropIsLogged(ops: seq<Op>, n: nat, cap: nat, i: nat)
    requires n < |ops| && ops[n].AddOp? && KeyOf(ops[n].f) !in KeysOf(Run(ops[..n], cap).pending)
    requires i < SatSub(|Run(ops[..n], cap).pending| + 1, cap)
    ensures var (at, gone) := (|Run(ops[..n], cap).log|, (Run(ops[..n], cap).pending + [ops[n].f])[i]);
      at + i < |Run(ops, cap).log| && Run(ops, cap).log[at + i] == Line(ops[n].f.added, gone.action, gone.target, "expired")
  {
    hide *;
    var l, part := Run(ops[..n], cap), Run(ops[..n + 1], cap).log;
    RunAdds(ops, n, cap);
    DropIsTold(l, ops[n].f, cap, i);
    LogOnlyGrows(ops, n + 1, cap);
    assert Run(ops, cap).log[..|part|][|l.log| + i] == Run(ops, cap).log[|l.log| + i];
  }

  lemma RunAdds(ops: seq<Op>, n: nat, cap: nat)
    requires n < |ops| && ops[n].AddOp?
    ensures Run(ops[..n + 1], cap) == Add(Run(ops[..n], cap), ops[n].f, cap)
  {
    assert ops[..n + 1][..n] == ops[..n];
  }

  lemma DropIsTold(l: Ledger, f: Followup, cap: nat, i: nat)
    requires KeyOf(f) !in KeysOf(l.pending) && i < SatSub(|l.pending| + 1, cap)
    ensures var (log, gone) := (Add(l, f, cap).log, (l.pending + [f])[i]);
      |l.log| + i < |log| && log[|l.log| + i] == Line(f.added, gone.action, gone.target, "expired")
  {
    hide KeysOf;
  }

  /** A finish takes out just the follow-ups of its action and target. */
  lemma {:induction false} OnlyItsKeyGoes(fs: seq<Followup>, k: Key, f: Followup)
    ensures f in Others(fs, k) <==> f in fs && !(f.action == k.0 && f.target == k.1)
  {
    if fs != [] {
      OnlyItsKeyGoes(fs[1..], k, f);
      assert f in fs <==> f == fs[0] || f in fs[1..];
    }
  }

  /** And leaves the others in their order. */
  lemma {:induction false} OthersAreLeft(a: seq<Followup>, b: seq<Followup>, k: Key)
    ensures Others(a + b, k) == Others(a, k) + Others(b, k)
    ensures (forall f :: f in a ==> KeyOf(f) != k) ==> Others(a, k) == a
  {
    if a == [] {
      assert a + b == b;
    } else {
      assert (a + b)[1..] == a[1..] + b;
      OthersAreLeft(a[1..], b, k);
    }
  }

  /** What is due is just what is pending and has come to its time, in the order pending. */
  lemma {:induction false} DueKeepsOrder(a: seq<Followup>, b: seq<Followup>, now: nat)
    ensures Due(a + b, now) == Due(a, now) + Due(b, now)
  {
    if a == [] {
      assert a + b == b;
    } else {
      assert (a + b)[1..] == a[1..] + b && (a + b)[0] == a[0];
      DueKeepsOrder(a[1..], b, now);
    }
  }

  lemma {:induction false} DueAllOrNone(a: seq<Followup>, now: nat)
    ensures (forall f :: f in a ==> f.due <= now) ==> Due(a, now) == a
    ensures (forall f :: f in a ==> f.due > now) ==> Due(a, now) == []
  {
    if a != [] {
      DueAllOrNone(a[1..], now);
    }
  }
}
