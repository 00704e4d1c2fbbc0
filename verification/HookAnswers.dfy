/** The one answer in terms of what each hook said: decision, reason, contexts, messages and every other field. */
module HookAnswers {
  import opened Prelude
  import opened HookMerge
  import opened MergeSums
  import opened MergeLaws
  import HookCombine
  import HookSequential
  import StandingAnswers

  // ---- what one hook said

  function FieldOf(r: Res, k: Name): Option<Json> {
    if r.out.Object? then Lookup(r.out.fields, k) else None
  }

  /** A field of the hook's `hookSpecificOutput`, when that is a table. */
  function NestedOf(r: Res, k: Name): Option<Json> {
    match FieldOf(r, HookSpecificOutput)
    case Some(Obj(h)) => Lookup(h, k)
    case _ => None
  }

  function TextIn(v: Option<Json>): seq<string> {
    match v
    case Some(Str(s)) => [s]
    case _ => []
  }

  /** Its decision, with the reason that stands beside it. */
  function DecisionsOf(r: Res): seq<Decision> {
    match NestedOf(r, PermissionDecision)
    case Some(Str(s)) => [Decision(s, NestedOf(r, PermissionDecisionReason))]
    case _ => []
  }

  predicate Once(r: Res) {
    HookCombine.KeysOnce(r.out)
  }

  predicate AllOnce(rs: seq<Res>) {
    forall r :: r in rs ==> Once(r)
  }

  // ---- what it contributes

  function MessagesIn(es: seq<Elem>): seq<string> {
    if es == [] then [] else
      var n := |es| - 1;
      MessagesIn(es[..n]) + (if es[n].Message? then [es[n].s] else [])
  }

  lemma {:induction false} InAppend(a: seq<Elem>, b: seq<Elem>)
    ensures ContextsIn(a + b) == ContextsIn(a) + ContextsIn(b)
    ensures DecisionsIn(a + b) == DecisionsIn(a) + DecisionsIn(b)
    ensures MessagesIn(a + b) == MessagesIn(a) + MessagesIn(b)
  {
    if b == [] {
      assert a + b == a;
    } else {
      hide *;
      var n := |b| - 1;
      InAppend(a, b[..n]);
      assert (a + b)[..|a + b| - 1] == a + b[..n] && (a + b)[|a + b| - 1] == b[n];
      InLast(b);
      InLast(a + b);
      Grouped(ContextsIn(a), ContextsIn(b[..n]), if b[n].Context? then [b[n].s] else []);
      Grouped(DecisionsIn(a), DecisionsIn(b[..n]), if b[n].Decide? then [b[n].d] else []);
      Grouped(MessagesIn(a), MessagesIn(b[..n]), if b[n].Message? then [b[n].s] else []);
    }
  }

  lemma Grouped<T>(a: seq<T>, b: seq<T>, c: seq<T>)
    ensures (a + b) + c == a + (b + c)
  {
  }

  lemma InLast(es: seq<Elem>)
    requires es != []
    ensures var (init, e) := (es[..|es| - 1], es[|es| - 1]);
      && ContextsIn(es) == ContextsIn(init) + (if e.Context? then [e.s] else [])
      && DecisionsIn(es) == DecisionsIn(init) + (if e.Decide? then [e.d] else [])
      && MessagesIn(es) == MessagesIn(init) + (if e.Message? then [e.s] else [])
  {
  }

  lemma InOne(e: Elem)
    ensures ContextsIn([e]) == if e.Context? then [e.s] else []
    ensures DecisionsIn([e]) == if e.Decide? then [e.d] else []
    ensures MessagesIn([e]) == if e.Message? then [e.s] else []
  {
    assert [e][..0] == [];
  }

  function DecisionAt(h: seq<(Name, Json)>, v: Option<Json>): seq<Decision> {
    match v
    case Some(Str(s)) => [Decision(s, Lookup(h, PermissionDecisionReason))]
    case _ => []
  }

  lemma {:induction false} NestedContributes(h: seq<(Name, Json)>, fields: seq<(Name, Json)>)
    requires UniqueKeys(fields)
    ensures var es := HsoElems(h, fields);
      && ContextsIn(es) == TextIn(Lookup(fields, AdditionalContext))
      && DecisionsIn(es) == DecisionAt(h, Lookup(fields, PermissionDecision))
      && MessagesIn(es) == []
  {
    if fields != [] {
      hide *;
      var n := |fields| - 1;
      var (k, v) := fields[n];
      NestedLast(h, fields);
      LastIsNew(fields);
      NestedContributes(h, fields[..n]);
      InAppend(HsoElems(h, fields[..n]), [HsoElem(h, k, v)]);
      InOne(HsoElem(h, k, v));
      HookSequential.LookupSnoc(fields, AdditionalContext);
      HookSequential.LookupSnoc(fields, PermissionDecision);
      NestedStep(h, k, v, Lookup(fields[..n], AdditionalContext), Lookup(fields[..n], PermissionDecision));
    }
  }

  lemma NestedLast(h: seq<(Name, Json)>, fields: seq<(Name, Json)>)
    requires UniqueKeys(fields) && fields != []
    ensures var n := |fields| - 1;
      UniqueKeys(fields[..n]) && HsoElems(h, fields) == HsoElems(h, fields[..n]) + [HsoElem(h, fields[n].0, fields[n].1)]
  {
  }

  lemma NestedStep(h: seq<(Name, Json)>, k: Name, v: Json, context: Option<Json>, decision: Option<Json>)
    requires (k == AdditionalContext ==> context == None) && (k == PermissionDecision ==> decision == None)
    ensures var e := HsoElem(h, k, v);
      && !e.Message?
      && TextIn(if context.Some? then context else if k == AdditionalContext then Some(v) else None)
         == TextIn(context) + (if e.Context? then [e.s] else [])
      && DecisionAt(h, if decision.Some? then decision else if k == PermissionDecision then Some(v) else None)
         == DecisionAt(h, decision) + (if e.Decide? then [e.d] else [])
  {
  }

  lemma LastIsNew(fields: seq<(Name, Json)>)
    requires UniqueKeys(fields) && fields != []
    ensures Lookup(fields[..|fields| - 1], fields[|fields| - 1].0) == None
  {
  }

  lemma FieldContributes(k: Name, v: Json)
    requires k.HookSpecificOutput? && v.Obj? ==> UniqueKeys(v.fields)
    ensures var es := FieldElems(k, v);
      && ContextsIn(es) == (if k.HookSpecificOutput? && v.Obj? then TextIn(Lookup(v.fields, AdditionalContext)) else [])
      && DecisionsIn(es) == (if k.HookSpecificOutput? && v.Obj? then DecisionAt(v.fields, Lookup(v.fields, PermissionDecision)) else [])
      && MessagesIn(es) == (if k.SystemMessage? then TextIn(Some(v)) else [])
  {
    if k.HookSpecificOutput? && v.Obj? {
      NestedContributes(v.fields, v.fields);
      InOne(OpenHso);
      InAppend([OpenHso], HsoElems(v.fields, v.fields));
      hide HsoElems, ContextsIn, DecisionsIn, MessagesIn;
      assert [] + ContextsIn(HsoElems(v.fields, v.fields)) == ContextsIn(HsoElems(v.fields, v.fields));
      assert [] + DecisionsIn(HsoElems(v.fields, v.fields)) == DecisionsIn(HsoElems(v.fields, v.fields));
    } else {
      InOne(FieldElems(k, v)[0]);
    }
  }

  /** What a field found in the table of fields gives. */
  function NestedText(v: Option<Json>, k: Name): seq<string> {
    match v
    case Some(Obj(h)) => TextIn(Lookup(h, k))
    case _ => []
  }

  function NestedDecision(v: Option<Json>): seq<Decision> {
    match v
    case Some(Obj(h)) => DecisionAt(h, Lookup(h, PermissionDecision))
    case _ => []
  }

  /** Every table among the fields that is a `hookSpecificOutput` has its keys once. */
  predicate TablesApart(fields: seq<(Name, Json)>) {
    forall i :: 0 <= i < |fields| && fields[i].0.HookSpecificOutput? && fields[i].1.Obj? ==> UniqueKeys(fields[i].1.fields)
  }

  lemma PrefixApart(fields: seq<(Name, Json)>)
    requires fields != [] && UniqueKeys(fields) && TablesApart(fields)
    ensures var n := |fields| - 1;
      && UniqueKeys(fields[..n]) && TablesApart(fields[..n])
      && (fields[n].0.HookSpecificOutput? && fields[n].1.Obj? ==> UniqueKeys(fields[n].1.fields))
  {
  }

  lemma TopLast(fields: seq<(Name, Json)>)
    requires fields != []
    ensures var n := |fields| - 1; TopElems(fields) == TopElems(fields[..n]) + FieldElems(fields[n].0, fields[n].1)
  {
  }

  lemma {:induction false} TopContributes(fields: seq<(Name, Json)>)
    requires UniqueKeys(fields)
    requires TablesApart(fields)
    ensures var es := TopElems(fields);
      && ContextsIn(es) == NestedText(Lookup(fields, HookSpecificOutput), AdditionalContext)
      && DecisionsIn(es) == NestedDecision(Lookup(fields, HookSpecificOutput))
      && MessagesIn(es) == TextIn(Lookup(fields, SystemMessage))
  {
    if fields != [] {
      hide *;
      var n := |fields| - 1;
      var (k, v) := fields[n];
      PrefixApart(fields);
      TopLast(fields);
      LastIsNew(fields);
      TopContributes(fields[..n]);
      FieldContributes(k, v);
      InAppend(TopElems(fields[..n]), FieldElems(k, v));
      HookSequential.LookupSnoc(fields, HookSpecificOutput);
      HookSequential.LookupSnoc(fields, SystemMessage);
      TableStep(Lookup(fields[..n], HookSpecificOutput), Lookup(fields, HookSpecificOutput), k, v);
      MessageStep(Lookup(fields[..n], SystemMessage), Lookup(fields, SystemMessage), k, v);
    }
  }

  lemma TableStep(was: Option<Json>, now: Option<Json>, k: Name, v: Json)
    requires now == (if was.Some? then was else if k == HookSpecificOutput then Some(v) else None)
    requires k == HookSpecificOutput ==> was == None
    ensures NestedText(now, AdditionalContext) == NestedText(was, AdditionalContext) +
      (if k.HookSpecificOutput? && v.Obj? then TextIn(Lookup(v.fields, AdditionalContext)) else [])
    ensures NestedDecision(now) == NestedDecision(was) +
      (if k.HookSpecificOutput? && v.Obj? then DecisionAt(v.fields, Lookup(v.fields, PermissionDecision)) else [])
  {
  }

  lemma MessageStep(was: Option<Json>, now: Option<Json>, k: Name, v: Json)
    requires now == (if was.Some? then was else if k == SystemMessage then Some(v) else None)
    requires k == SystemMessage ==> was == None
    ensures TextIn(now) == TextIn(was) + (if k.SystemMessage? then TextIn(Some(v)) else [])
  {
  }

  lemma HookContributes(r: Res)
    requires Once(r) && Elems(r).Some?
    ensures var es := Elems(r).value;
      && ContextsIn(es) == TextIn(NestedOf(r, AdditionalContext))
      && DecisionsIn(es) == DecisionsOf(r)
      && MessagesIn(es) == TextIn(FieldOf(r, SystemMessage))
  {
    if r.out.Object? {
      TablesOnce(r.out.fields);
      ObjectContributes(r.err, r.out.fields);
    } else {
      InOne(Stderr(r.err));
    }
    hide ContextsIn, DecisionsIn, MessagesIn, TopElems;
  }

  lemma TablesOnce(fields: seq<(Name, Json)>)
    requires HookCombine.KeysOnce(Object(fields))
    ensures TablesApart(fields)
  {
    forall i | 0 <= i < |fields| && fields[i].0.HookSpecificOutput? && fields[i].1.Obj? ensures UniqueKeys(fields[i].1.fields) {
      HookCombine.LookupOnly(fields, i);
    }
  }

  lemma ObjectContributes(err: string, fields: seq<(Name, Json)>)
    requires UniqueKeys(fields) && TablesApart(fields)
    ensures var es := [Stderr(err)] + TopElems(fields);
      && ContextsIn(es) == NestedText(Lookup(fields, HookSpecificOutput), AdditionalContext)
      && DecisionsIn(es) == NestedDecision(Lookup(fields, HookSpecificOutput))
      && MessagesIn(es) == TextIn(Lookup(fields, SystemMessage))
  {
    hide *;
    TopContributes(fields);
    InOne(Stderr(err));
    InAppend([Stderr(err)], TopElems(fields));
    Empty(ContextsIn(TopElems(fields)));
    Empty(DecisionsIn(TopElems(fields)));
    Empty(MessagesIn(TopElems(fields)));
  }

  lemma Empty<T>(a: seq<T>)
    ensures [] + a == a
  {
  }

  // ---- what all of them said

  function Contexts(rs: seq<Res>): seq<string> {
    if rs == [] then [] else Contexts(rs[..|rs| - 1]) + TextIn(NestedOf(rs[|rs| - 1], AdditionalContext))
  }

  function Messages(rs: seq<Res>): seq<string> {
    if rs == [] then [] else Messages(rs[..|rs| - 1]) + TextIn(FieldOf(rs[|rs| - 1], SystemMessage))
  }

  function Decisions(rs: seq<Res>): seq<Decision> {
    if rs == [] then [] else Decisions(rs[..|rs| - 1]) + DecisionsOf(rs[|rs| - 1])
  }

  lemma {:induction false} AllContribute(rs: seq<Res>)
    requires AllOnce(rs) && Collect(rs, false).Some?
    ensures var es := AllElems(rs);
      ContextsIn(es) == Contexts(rs) && DecisionsIn(es) == Decisions(rs) && MessagesIn(es) == Messages(rs)
  {
    if rs != [] {
      var n := |rs| - 1;
      assert rs[n] in rs && forall r :: r in rs[..n] ==> r in rs;
      AllContribute(rs[..n]);
      HookContributes(rs[n]);
      InAppend(AllElems(rs[..n]), Elems(rs[n]).value);
      hide Elems, ContextsIn, DecisionsIn, MessagesIn;
    }
  }

  // ---- the decision

  /** Some hook decides `v`. */
  predicate Said(rs: seq<Res>, v: string) {
    exists i :: 0 <= i < |rs| && NestedOf(rs[i], PermissionDecision) == Some(Str(v))
  }

  /** The hook at `i` is the first to decide `v`. */
  predicate FirstToSay(rs: seq<Res>, i: int, v: string) {
    && 0 <= i < |rs| && NestedOf(rs[i], PermissionDecision) == Some(Str(v))
    && forall n :: 0 <= n < i ==> NestedOf(rs[n], PermissionDecision) != Some(Str(v))
  }

  /** No hook before `i` decides anything. */
  predicate FirstToDecide(rs: seq<Res>, i: int) {
    0 <= i < |rs| && DecisionsOf(rs[i]) != [] && forall n :: 0 <= n < i ==> DecisionsOf(rs[n]) == []
  }

  /** The hook whose decision stands at `d` among all of them. */
  lemma {:induction false} DecisionFrom(rs: seq<Res>, d: nat) returns (i: nat)
    requires d < |Decisions(rs)|
    ensures i < |rs| && DecisionsOf(rs[i]) == [Decisions(rs)[d]] && |Decisions(rs[..i])| == d
  {
    var n := |rs| - 1;
    if d < |Decisions(rs[..n])| {
      i := DecisionFrom(rs[..n], d);
      assert rs[..n][..i] == rs[..i];
    } else {
      i := n;
    }
  }

  lemma {:induction false} DecisionAmong(rs: seq<Res>, i: nat)
    requires i < |rs| && DecisionsOf(rs[i]) != []
    ensures |Decisions(rs[..i])| < |Decisions(rs)| && Decisions(rs)[|Decisions(rs[..i])|] == DecisionsOf(rs[i])[0]
    decreases |rs|
  {
    var n := |rs| - 1;
    hide *;
    DecisionsLast(rs);
    if i < n {
      DecisionAmong(rs[..n], i);
      assert rs[..n][..i] == rs[..i] && rs[..n][i] == rs[i];
    }
  }

  lemma DecisionsLast(rs: seq<Res>)
    requires rs != []
    ensures Decisions(rs) == Decisions(rs[..|rs| - 1]) + DecisionsOf(rs[|rs| - 1]) && |DecisionsOf(rs[|rs| - 1])| <= 1
  {
  }

  lemma {:induction false} DecisionsGrow(rs: seq<Res>, i: nat, k: nat)
    requires i <= k <= |rs|
    ensures |Decisions(rs[..i])| <= |Decisions(rs[..k])|
    ensures i < k && DecisionsOf(rs[i]) != [] ==> |Decisions(rs[..i])| < |Decisions(rs[..k])|
    decreases k
  {
    hide *;
    if i < k {
      var upTo := rs[..k];
      assert upTo[..k - 1] == rs[..k - 1] && upTo[k - 1] == rs[k - 1];
      DecisionsLast(upTo);
      DecisionsGrow(rs, i, k - 1);
    }
  }

  /** Stronger decisions come before weaker ones. */
  predicate Order(stronger: string, weaker: string) {
    || (stronger == "deny" && weaker != "deny")
    || (stronger == "defer" && weaker != "deny" && weaker != "defer")
    || (stronger == "ask" && weaker != "deny" && weaker != "defer" && weaker != "ask")
    || (stronger == "allow" && weaker != "deny" && weaker != "defer" && weaker != "ask" && weaker != "allow")
  }

  lemma RankIsOrder(a: string, b: string)
    ensures Rank(a) < Rank(b) <==> Order(a, b)
  {
  }

  /** The value decided, by the values said: deny, else defer, else ask, else allow, else the first one said. */
  predicate Prevails(rs: seq<Res>, v: string, i: int) {
    && FirstToSay(rs, i, v)
    && (v == "deny" <==> Said(rs, "deny"))
    && (v == "defer" <==> !Said(rs, "deny") && Said(rs, "defer"))
    && (v == "ask" <==> !Said(rs, "deny") && !Said(rs, "defer") && Said(rs, "ask"))
    && (v == "allow" <==> !Said(rs, "deny") && !Said(rs, "defer") && !Said(rs, "ask") && Said(rs, "allow"))
    && (v !in {"deny", "defer", "ask", "allow"} ==> FirstToDecide(rs, i))
  }

  lemma BestPrevails(rs: seq<Res>, d: Decision) returns (i: nat)
    requires FirstBest(Decisions(rs), d)
    ensures Prevails(rs, d.value, i) && DecisionsOf(rs[i]) == [d]
  {
    var ds := Decisions(rs);
    var at :| 0 <= at < |ds| && ds[at] == d
      && (forall n :: 0 <= n < at ==> Rank(ds[n].value) > Rank(d.value))
      && forall n :: at < n < |ds| ==> Rank(ds[n].value) >= Rank(d.value);
    i := DecisionFrom(rs, at);
    forall k | 0 <= k < |rs| && DecisionsOf(rs[k]) != []
      ensures !Order(DecisionsOf(rs[k])[0].value, d.value)
      ensures k < i ==> Order(d.value, DecisionsOf(rs[k])[0].value)
    {
      AgainstBest(rs, at, d, i, k);
    }
    hide Rank, Decisions, FirstBest, DecisionsOf, Order;
    OrderPrevails(rs, d, i);
  }

  lemma AgainstBest(rs: seq<Res>, at: nat, d: Decision, i: nat, k: nat)
    requires at < |Decisions(rs)| && i < |rs| && k < |rs| && DecisionsOf(rs[k]) != [] && |Decisions(rs[..i])| == at
    requires forall n :: 0 <= n < at ==> Rank(Decisions(rs)[n].value) > Rank(d.value)
    requires forall n :: at < n < |Decisions(rs)| ==> Rank(Decisions(rs)[n].value) >= Rank(d.value)
    requires Decisions(rs)[at] == d
    ensures !Order(DecisionsOf(rs[k])[0].value, d.value)
    ensures k < i ==> Order(d.value, DecisionsOf(rs[k])[0].value)
  {
    hide Decisions, DecisionsOf;
    DecisionAmong(rs, k);
    RankIsOrder(DecisionsOf(rs[k])[0].value, d.value);
    RankIsOrder(d.value, DecisionsOf(rs[k])[0].value);
    hide Rank, Order;
    if k < i {
      DecisionsGrow(rs, k, i);
    }
  }

  lemma OrderPrevails(rs: seq<Res>, d: Decision, i: nat)
    requires i < |rs| && DecisionsOf(rs[i]) == [d]
    requires forall k :: 0 <= k < |rs| && DecisionsOf(rs[k]) != [] ==>
      !Order(DecisionsOf(rs[k])[0].value, d.value) && (k < i ==> Order(d.value, DecisionsOf(rs[k])[0].value))
    ensures Prevails(rs, d.value, i)
  {
    forall v | Said(rs, v) ensures !Order(v, d.value) {
      var k :| 0 <= k < |rs| && NestedOf(rs[k], PermissionDecision) == Some(Str(v));
      assert DecisionsOf(rs[k])[0].value == v;
    }
    assert Said(rs, d.value) by { assert NestedOf(rs[i], PermissionDecision) == Some(Str(d.value)); }
    forall k | 0 <= k < i && DecisionsOf(rs[k]) != [] ensures DecisionsOf(rs[k])[0].value != d.value {
      assert Order(d.value, DecisionsOf(rs[k])[0].value);
    }
  }

  /**
   The merged decision in the values said: "deny" if any hook denies, else "defer" if any defers, else "ask" if any asks, else "allow" if
   any allows, else the first one given; with the reason of the first hook that gives it. There is one just when some hook decides.
   */
  lemma DecisionPrevails(rs: seq<Res>, j: Joiners)
    requires AllTyped(rs) && AllOnce(rs) && Merge(rs, j, false).Merged? && Merge(rs, j, false).hso.Some?
    ensures var h := Merge(rs, j, false).hso.value;
      && (PermissionDecision in h <==> exists v :: Said(rs, v))
      && (PermissionDecision in h ==> exists v, i :: Prevails(rs, v, i) && ShowsDecision(h, rs[i], v))
  {
    AnswerKeepsHookOrder(rs, j);
    AllContribute(rs);
    ShownPrevails(rs, Merge(rs, j, false).hso.value);
    hide *;
  }

  /** The answer gives a hook's decision with that hook's reason. */
  predicate ShowsDecision(h: map<Name, Json>, r: Res, v: string) {
    && PermissionDecision in h && h[PermissionDecision] == Str(v)
    && match NestedOf(r, PermissionDecisionReason)
       case None => PermissionDecisionReason !in h
       case Some(why) => PermissionDecisionReason in h && h[PermissionDecisionReason] == why
  }

  lemma ShownPrevails(rs: seq<Res>, h: map<Name, Json>)
    requires PermissionDecision in h <==> Decisions(rs) != []
    requires PermissionDecision in h ==> exists d :: FirstBest(Decisions(rs), d) && GivenBy(h, d)
    ensures PermissionDecision in h <==> exists v :: Said(rs, v)
    ensures PermissionDecision in h ==> exists v, i :: Prevails(rs, v, i) && ShowsDecision(h, rs[i], v)
  {
    hide FirstBest, Decisions;
    if PermissionDecision in h {
      var d :| FirstBest(Decisions(rs), d) && GivenBy(h, d);
      var i := BestPrevails(rs, d);
      hide Prevails;
      assert ShowsDecision(h, rs[i], d.value);
      assert Said(rs, d.value) by { assert NestedOf(rs[i], PermissionDecision) == Some(Str(d.value)); }
    }
    if v :| Said(rs, v) {
      var i :| 0 <= i < |rs| && NestedOf(rs[i], PermissionDecision) == Some(Str(v));
      DecisionAmong(rs, i);
    }
  }

  // ---- contexts, messages and stderr

  lemma {:induction false} FoldMessages(es: seq<Elem>, lenient: bool)
    ensures Fold(START_ST, es, lenient).acc.messages == MessagesIn(es)
  {
    if es != [] {
      FoldMessages(es[..|es| - 1], lenient);
      MessageAdds(Fold(START_ST, es[..|es| - 1], lenient), es[|es| - 1], lenient);
      hide Absorb;
    }
  }

  lemma MessageAdds(st: St, e: Elem, lenient: bool)
    ensures Absorb(st, e, lenient).acc.messages == st.acc.messages + (if e.Message? then [e.s] else [])
  {
    assert st.acc.messages + [] == st.acc.messages;
  }

  function Stderrs(rs: seq<Res>): string {
    if rs == [] then "" else Stderrs(rs[..|rs| - 1]) + rs[|rs| - 1].err
  }

  lemma {:induction false} ErrKept(st: St, es: seq<Elem>, lenient: bool)
    requires forall e :: e in es ==> !e.Stderr?
    ensures Fold(st, es, lenient).acc.err == st.acc.err
  {
    if es != [] {
      var n := |es| - 1;
      assert es[n] in es && forall e :: e in es[..n] ==> e in es;
      ErrKept(st, es[..n], lenient);
    }
  }

  lemma {:induction false} NoStderrNested(h: seq<(Name, Json)>, fields: seq<(Name, Json)>)
    ensures forall e :: e in HsoElems(h, fields) ==> !e.Stderr?
  {
    if fields != [] {
      NoStderrNested(h, fields[..|fields| - 1]);
    }
  }

  lemma {:induction false} NoStderr(fields: seq<(Name, Json)>)
    ensures forall e :: e in TopElems(fields) ==> !e.Stderr?
  {
    if fields != [] {
      var (k, v) := fields[|fields| - 1];
      NoStderr(fields[..|fields| - 1]);
      if k.HookSpecificOutput? && v.Obj? {
        NoStderrNested(v.fields, v.fields);
      }
    }
  }

  lemma {:induction false} StderrsAreJoined(rs: seq<Res>, lenient: bool)
    ensures Collect(rs, lenient).Some? ==> Collect(rs, lenient).value.acc.err == Stderrs(rs)
  {
    if rs != [] {
      var n := |rs| - 1;
      StderrsAreJoined(rs[..n], lenient);
      if Collect(rs, lenient).Some? {
        HookErr(Collect(rs[..n], lenient).value, rs[n], lenient);
        hide Elems, Fold;
      }
    }
  }

  lemma HookErr(st: St, r: Res, lenient: bool)
    requires Elems(r).Some?
    ensures Fold(st, Elems(r).value, lenient).acc.err == st.acc.err + r.err
  {
    FoldOne(st, Stderr(r.err), lenient);
    if r.out.Object? {
      NoStderr(r.out.fields);
      FoldAppend(st, [Stderr(r.err)], TopElems(r.out.fields), lenient);
      ErrKept(Fold(st, [Stderr(r.err)], lenient), TopElems(r.out.fields), lenient);
      hide Fold;
    }
  }

  /**
   The contexts, messages and stderr of the merged answer are those of the hooks, in hook order: nonempty contexts and all messages joined
   by their joiners, stderr end to end.
   */
  lemma TextsAreJoined(rs: seq<Res>, j: Joiners)
    requires AllTyped(rs) && AllOnce(rs) && Merge(rs, j, false).Merged?
    ensures var a := Merge(rs, j, false);
      && a.err == Stderrs(rs)
      && (SystemMessage in a.top <==> Messages(rs) != [])
      && (SystemMessage in a.top ==> a.top[SystemMessage] == Str(Join(Messages(rs), j.message)))
      && (a.hso.Some? ==> (AdditionalContext in a.hso.value <==> Contexts(rs) != []))
      && (a.hso.Some? && AdditionalContext in a.hso.value ==>
            a.hso.value[AdditionalContext] == Str(Join(NonEmpty(Contexts(rs)), j.context)))
  {
    CollectIsFold(rs, false);
    AllContribute(rs);
    FoldMessages(AllElems(rs), false);
    CollectIsSum(rs, j);
    StderrsAreJoined(rs, false);
    if Merge(rs, j, false).hso.Some? {
      AnswerKeepsHookOrder(rs, j);
    }
    hide Collect, AllElems, RenderHso, Fold;
  }

  // ---- every other field

  /** A field that the merge neither joins nor decides. */
  predicate PlainName(k: Name, nested: bool) {
    && !Inherited(k)
    && (if nested then k != AdditionalContext && k != PermissionDecision && k != PermissionDecisionReason
        else k != HookSpecificOutput && k != SystemMessage)
  }

  function Elem(k: Name, v: Json, nested: bool): HookMerge.Elem {
    if nested then HsoField(k, v) else TopField(k, v)
  }

  function Given(r: Res, k: Name, nested: bool): Option<Json> {
    if nested then NestedOf(r, k) else FieldOf(r, k)
  }

  lemma {:induction false} NestedGives(h: seq<(Name, Json)>, fields: seq<(Name, Json)>, e: HookMerge.Elem)
    ensures e in HsoElems(h, fields) <==> exists i :: 0 <= i < |fields| && e == HsoElem(h, fields[i].0, fields[i].1)
  {
    if fields != [] {
      var n := |fields| - 1;
      NestedGives(h, fields[..n], e);
      assert forall i :: 0 <= i < n ==> fields[..n][i] == fields[i];
    }
  }

  /** One of the fields contributes `e`. */
  predicate SomeFieldGives(fields: seq<(Name, Json)>, e: HookMerge.Elem) {
    exists f :: f in fields && e in FieldElems(f.0, f.1)
  }

  lemma FieldGivesLast(fields: seq<(Name, Json)>, e: HookMerge.Elem)
    requires fields != []
    ensures var n := |fields| - 1;
      SomeFieldGives(fields, e) <==> SomeFieldGives(fields[..n], e) || e in FieldElems(fields[n].0, fields[n].1)
  {
    hide FieldElems;
    var n := |fields| - 1;
    assert forall f :: f in fields <==> f in fields[..n] || f == fields[n];
  }

  lemma {:induction false} TopGives(fields: seq<(Name, Json)>, e: HookMerge.Elem)
    ensures e in TopElems(fields) <==> SomeFieldGives(fields, e)
  {
    if fields != [] {
      hide *;
      TopLast(fields);
      FieldGivesLast(fields, e);
      TopGives(fields[..|fields| - 1], e);
    }
  }

  lemma PlainFieldGives(f: (Name, Json), k: Name, v: Json)
    requires PlainName(k, false)
    ensures TopField(k, v) in FieldElems(f.0, f.1) <==> f == (k, v)
  {
    if f.0.HookSpecificOutput? && f.1.Obj? {
      NestedGives(f.1.fields, f.1.fields, TopField(k, v));
      hide HsoElems;
    }
  }

  lemma FieldIsGiven(r: Res, k: Name, v: Json)
    requires Once(r) && Elems(r).Some? && PlainName(k, false)
    ensures TopField(k, v) in Elems(r).value <==> FieldOf(r, k) == Some(v)
  {
    if r.out.Object? {
      ObjectGives(r.out.fields, k, v);
      hide TopElems, Lookup;
    }
  }

  lemma ObjectGives(fields: seq<(Name, Json)>, k: Name, v: Json)
    requires UniqueKeys(fields) && PlainName(k, false)
    ensures TopField(k, v) in TopElems(fields) <==> Lookup(fields, k) == Some(v)
  {
    hide TopElems, FieldElems, Lookup, PlainName, UniqueKeys;
    TopGives(fields, TopField(k, v));
    HookSequential.LookupIsIn(fields, k, v);
    forall f | f in fields ensures TopField(k, v) in FieldElems(f.0, f.1) <==> f == (k, v) {
      PlainFieldGives(f, k, v);
    }
    assert (exists i :: 0 <= i < |fields| && fields[i] == (k, v)) <==> (k, v) in fields;
  }

  lemma NestedIsGiven(r: Res, k: Name, v: Json)
    requires Once(r) && Elems(r).Some? && PlainName(k, true)
    ensures HsoField(k, v) in Elems(r).value <==> NestedOf(r, k) == Some(v)
  {
    if r.out.Object? {
      NestedIsInTable(r.out.fields, k, v);
      hide TopElems, NestedOf;
      NestedIs(r, k);
    }
  }

  lemma NestedIs(r: Res, k: Name)
    requires r.out.Object?
    ensures NestedOf(r, k) == Lookup(HookCombine.NestedFields(r.out.fields), k)
  {
  }

  lemma NestedIsInTable(fields: seq<(Name, Json)>, k: Name, v: Json)
    requires HookCombine.KeysOnce(Object(fields)) && PlainName(k, true)
    ensures HsoField(k, v) in TopElems(fields) <==> Lookup(HookCombine.NestedFields(fields), k) == Some(v)
  {
    var h, e := HookCombine.NestedFields(fields), HsoField(k, v);
    TopGives(fields, e);
    TableGives(h, k, v);
    hide TopElems, HsoElems, Lookup, HookCombine.NestedFields;
    if i :| 0 <= i < |fields| && fields[i].0.HookSpecificOutput? {
      HookSequential.OneTable(fields, i);
      FromTheTable(fields, i, h, e);
    } else {
      NoTable(fields, e);
      EmptyTable(k, v);
    }
  }

  lemma EmptyTable(k: Name, v: Json)
    ensures Lookup([], k) == None
  {
  }

  lemma NoTable(fields: seq<(Name, Json)>, e: HookMerge.Elem)
    requires e.HsoField? && forall i :: 0 <= i < |fields| ==> !fields[i].0.HookSpecificOutput?
    ensures HookCombine.NestedFields(fields) == [] && !SomeFieldGives(fields, e)
  {
  }

  lemma TableGives(h: seq<(Name, Json)>, k: Name, v: Json)
    requires UniqueKeys(h) && PlainName(k, true)
    ensures HsoField(k, v) in HsoElems(h, h) <==> Lookup(h, k) == Some(v)
  {
    NestedGives(h, h, HsoField(k, v));
    HookSequential.LookupIsIn(h, k, v);
    hide HsoElems, Lookup;
    assert forall i :: 0 <= i < |h| ==> (HsoField(k, v) == HsoElem(h, h[i].0, h[i].1) <==> h[i] == (k, v));
  }

  lemma FromTheTable(fields: seq<(Name, Json)>, i: nat, h: seq<(Name, Json)>, e: HookMerge.Elem)
    requires i < |fields| && fields[i].0.HookSpecificOutput? && e.HsoField?
    requires forall f :: f in fields && f.0.HookSpecificOutput? ==> f == fields[i]
    requires h == if fields[i].1.Obj? then fields[i].1.fields else []
    ensures SomeFieldGives(fields, e) <==> e in HsoElems(h, h)
  {
    assert fields[i] in fields;
    assert e in FieldElems(fields[i].0, fields[i].1) <==> e in HsoElems(h, h);
    forall f | f in fields && e in FieldElems(f.0, f.1) ensures f == fields[i] {
    }
  }

  predicate GivenBySome(rs: seq<Res>, e: HookMerge.Elem) {
    exists i :: 0 <= i < |rs| && Elems(rs[i]).Some? && e in Elems(rs[i]).value
  }

  lemma GivenByLast(rs: seq<Res>, e: HookMerge.Elem)
    requires rs != []
    ensures var n := |rs| - 1;
      GivenBySome(rs, e) <==> GivenBySome(rs[..n], e) || (Elems(rs[n]).Some? && e in Elems(rs[n]).value)
  {
    var n := |rs| - 1;
    hide Elems;
    assert forall i :: 0 <= i < n ==> rs[..n][i] == rs[i];
  }

  lemma AllElemsLast(rs: seq<Res>)
    requires rs != []
    ensures var n := |rs| - 1; AllElems(rs) == AllElems(rs[..n]) + (if Elems(rs[n]).Some? then Elems(rs[n]).value else [])
  {
  }

  lemma {:induction false} AllElemsAre(rs: seq<Res>, e: HookMerge.Elem)
    ensures e in AllElems(rs) <==> GivenBySome(rs, e)
  {
    if rs != [] {
      hide *;
      GivenByLast(rs, e);
      AllElemsLast(rs);
      AllElemsAre(rs[..|rs| - 1], e);
    }
  }

  function TableOf(acc: Acc, nested: bool): map<Name, Json> {
    if nested then acc.hso else acc.top
  }

  lemma {:induction false} KeyIsGiven(es: seq<HookMerge.Elem>, k: Name, nested: bool)
    requires PlainName(k, nested) && k in TableOf(Fold(START_ST, es, false).acc, nested)
    ensures exists v :: Elem(k, v, nested) in es
  {
    var n := |es| - 1;
    assert es == es[..n] + [es[n]];
    if k in TableOf(Fold(START_ST, es[..n], false).acc, nested) {
      KeyIsGiven(es[..n], k, nested);
      var v :| Elem(k, v, nested) in es[..n];
      assert Elem(k, v, nested) in es;
    } else {
      assert es[n] == Elem(k, es[n].v, nested);
    }
  }

  /** Every hook's plain fields are in the answer, and nothing else is: the hooks that give a field agree on it. */
  lemma FieldsAreGiven(rs: seq<Res>, j: Joiners, k: Name, nested: bool)
    requires AllTyped(rs) && AllOnce(rs) && Merge(rs, j, false).Merged? && PlainName(k, nested)
    requires nested ==> Merge(rs, j, false).hso.Some?
    ensures var m := if nested then Merge(rs, j, false).hso.value else Merge(rs, j, false).top;
      && (k in m <==> exists i :: 0 <= i < |rs| && Given(rs[i], k, nested).Some?)
      && forall i :: 0 <= i < |rs| && Given(rs[i], k, nested).Some? ==> k in m && Given(rs[i], k, nested) == Some(m[k])
  {
    CollectIsFold(rs, false);
    var es, acc := AllElems(rs), Collect(rs, false).value.acc;
    ResultsMerge(rs);
    forall i | 0 <= i < |rs| && Given(rs[i], k, nested).Some?
      ensures k in TableOf(acc, nested) && Given(rs[i], k, nested) == Some(TableOf(acc, nested)[k])
    {
      var v := Given(rs[i], k, nested).value;
      GivenIsElem(rs[i], k, v, nested);
      AllElemsAre(rs, Elem(k, v, nested));
      StandingAnswers.FieldIsKept(START_ST, es, Elem(k, v, nested));
    }
    if k in TableOf(acc, nested) {
      KeyIsGiven(es, k, nested);
      var v :| Elem(k, v, nested) in es;
      AllElemsAre(rs, Elem(k, v, nested));
      var i :| 0 <= i < |rs| && Elems(rs[i]).Some? && Elem(k, v, nested) in Elems(rs[i]).value;
      GivenIsElem(rs[i], k, v, nested);
    }
    hide Collect, AllElems, Fold, Elems, FieldOf, NestedOf;
  }

  lemma GivenIsElem(r: Res, k: Name, v: Json, nested: bool)
    requires Once(r) && Elems(r).Some? && PlainName(k, nested)
    ensures Elem(k, v, nested) in Elems(r).value <==> Given(r, k, nested) == Some(v)
  {
    if nested {
      NestedIsGiven(r, k, v);
    } else {
      FieldIsGiven(r, k, v);
    }
  }

  predicate AllMerge(rs: seq<Res>) {
    forall i :: 0 <= i < |rs| ==> Elems(rs[i]).Some?
  }

  lemma LastMerges(rs: seq<Res>)
    requires rs != [] && AllMerge(rs[..|rs| - 1]) && Elems(rs[|rs| - 1]).Some?
    ensures AllMerge(rs)
  {
    hide Elems;
    assert forall i :: 0 <= i < |rs| - 1 ==> rs[..|rs| - 1][i] == rs[i];
  }

  lemma {:induction false} ResultsMerge(rs: seq<Res>)
    requires Collect(rs, false).Some?
    ensures AllMerge(rs)
  {
    if rs != [] {
      hide Elems, Fold, AllMerge;
      ResultsMerge(rs[..|rs| - 1]);
      LastMerges(rs);
    }
  }
}
