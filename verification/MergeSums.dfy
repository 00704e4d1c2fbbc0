/**
 The strict merge of typed hook answers as a sum: every answer contributes a summand, conflict absorbs, summands combine associatively,
 and the merge shows the sum of what was contributed. The laws of merging follow from those of the sum, whatever order the loops of the
 merge take.
 */
module MergeSums {
  import opened Prelude
  import opened HookMerge

  /** The fields the merge treats by name have the type it treats: a table and texts. */
  predicate TypedElem(e: Elem) {
    && (e.TopField? ==> e.k != HookSpecificOutput && e.k != SystemMessage)
    && (e.HsoField? ==> e.k != AdditionalContext && e.k != PermissionDecision && e.k != PermissionDecisionReason)
  }

  predicate TypedElems(es: seq<Elem>) {
    forall e :: e in es ==> TypedElem(e)
  }

  predicate Typed(r: Res) {
    Elems(r).Some? ==> TypedElems(Elems(r).value)
  }

  // ---- what matters of a merge under way

  /** Untouched fields, and each joined text as one. */
  datatype Sum = Sum(
    top: map<Name, Json>,
    open: bool,
    hso: map<Name, Json>,
    context: Option<string>,
    message: Option<string>,
    decision: Option<Decision>,
    err: string)

  const ZERO: Sum := Sum(map[], false, map[], None, None, None, "")

  predicate Agree(a: map<Name, Json>, b: map<Name, Json>) {
    forall k :: k in a && k in b ==> a[k] == b[k]
  }

  /** Joined contexts: an empty one adds no joiner. */
  function PlusContext(a: Option<string>, b: Option<string>, sep: string): Option<string> {
    if a.None? then b else if b.None? then a
    else if a.value == "" then b else if b.value == "" then a else Some(a.value + sep + b.value)
  }

  function PlusMessage(a: Option<string>, b: Option<string>, sep: string): Option<string> {
    if a.None? then b else if b.None? then a else Some(a.value + sep + b.value)
  }

  function PlusDecision(a: Option<Decision>, b: Option<Decision>): Option<Decision> {
    if b.None? then a else Some(Better(a, b.value))
  }

  function Plus(a: Option<Sum>, b: Option<Sum>, j: Joiners): Option<Sum> {
    if a.None? || b.None? then None
    else
      var (x, y) := (a.value, b.value);
      if !Agree(x.top, y.top) || !Agree(x.hso, y.hso) then None
      else Some(Sum(x.top + y.top, x.open || y.open, x.hso + y.hso, PlusContext(x.context, y.context, j.context),
                    PlusMessage(x.message, y.message, j.message), PlusDecision(x.decision, y.decision), x.err + y.err))
  }

  lemma AgreeAssociates(a: map<Name, Json>, b: map<Name, Json>, c: map<Name, Json>)
    ensures Agree(a, b) && Agree(a + b, c) <==> Agree(b, c) && Agree(a, b + c)
    ensures (a + b) + c == a + (b + c)
  {
    if Agree(a, b) && Agree(a + b, c) {
      forall k | k in b && k in c ensures b[k] == c[k] { assert k in a + b && (a + b)[k] == b[k]; }
      forall k | k in a && k in b + c ensures a[k] == (b + c)[k] { assert k in a + b; }
    }
    if Agree(b, c) && Agree(a, b + c) {
      forall k | k in a && k in b ensures a[k] == b[k] { assert k in b + c; }
      forall k | k in a + b && k in c ensures (a + b)[k] == c[k] { assert k in b + c && (b + c)[k] == c[k]; }
    }
  }

  lemma TextsAssociate(a: string, b: string, c: string, sep: string)
    ensures a + sep + b + sep + c == a + sep + (b + sep + c)
  {
  }

  lemma OptionsAssociate(a: Sum, b: Sum, c: Sum, j: Joiners)
    ensures PlusContext(PlusContext(a.context, b.context, j.context), c.context, j.context)
         == PlusContext(a.context, PlusContext(b.context, c.context, j.context), j.context)
    ensures PlusMessage(PlusMessage(a.message, b.message, j.message), c.message, j.message)
         == PlusMessage(a.message, PlusMessage(b.message, c.message, j.message), j.message)
    ensures PlusDecision(PlusDecision(a.decision, b.decision), c.decision) == PlusDecision(a.decision, PlusDecision(b.decision, c.decision))
  {
    if a.context.Some? && b.context.Some? && c.context.Some? {
      TextsAssociate(a.context.value, b.context.value, c.context.value, j.context);
    }
    if a.message.Some? && b.message.Some? && c.message.Some? {
      TextsAssociate(a.message.value, b.message.value, c.message.value, j.message);
    }
  }

  lemma PlusAssociates(a: Option<Sum>, b: Option<Sum>, c: Option<Sum>, j: Joiners)
    ensures Plus(Plus(a, b, j), c, j) == Plus(a, Plus(b, c, j), j)
  {
    if a.Some? && b.Some? && c.Some? {
      AgreeAssociates(a.value.top, b.value.top, c.value.top);
      AgreeAssociates(a.value.hso, b.value.hso, c.value.hso);
      OptionsAssociate(a.value, b.value, c.value, j);
      assert (a.value.err + b.value.err) + c.value.err == a.value.err + (b.value.err + c.value.err);
    }
  }

  function FieldSum(k: Name, v: Json): (map<Name, Json>, bool) {
    if Inherited(k) then (map[], k.Prototype? && v == Obj([])) else (map[k := v], true)
  }

  /** What one contribution is on its own; none for one that conflicts by itself. */
  function ElemSum(e: Elem): Option<Sum> {
    match e
    case Stderr(s) => Some(ZERO.(err := s))
    case TopField(k, v) => var (m, ok) := FieldSum(k, v); if ok then Some(ZERO.(top := m)) else None
    case OpenHso => Some(ZERO.(open := true))
    case Message(s) => Some(ZERO.(message := Some(s)))
    case Context(s) => Some(ZERO.(context := Some(s)))
    case Decide(d) => Some(ZERO.(decision := Some(d)))
    case GiveReason => Some(ZERO)
    case HsoField(k, v) => var (m, ok) := FieldSum(k, v); if ok then Some(ZERO.(hso := m)) else None
  }

  /** The placeholders stand where the collected parts are. */
  predicate TypedAcc(acc: Acc) {
    && (HookSpecificOutput in acc.top ==> acc.top[HookSpecificOutput] == Obj([]))
    && (SystemMessage in acc.top ==> acc.top[SystemMessage] == Str(""))
    && (AdditionalContext in acc.hso ==> acc.hso[AdditionalContext] == Str(""))
    && (PermissionDecision in acc.hso ==> acc.hso[PermissionDecision] == Str(""))
    && (PermissionDecisionReason in acc.hso ==> acc.hso[PermissionDecisionReason] == Str(""))
    && (SystemMessage in acc.top <==> acc.messages != [])
    && (AdditionalContext in acc.hso <==> acc.contexts != [])
    && (PermissionDecision in acc.hso <==> acc.decision.Some?)
  }

  function PlainTop(top: map<Name, Json>): map<Name, Json> {
    map k | k in top && k != HookSpecificOutput && k != SystemMessage :: top[k]
  }

  function PlainHso(hso: map<Name, Json>): map<Name, Json> {
    map k | k in hso && k != AdditionalContext && k != PermissionDecision && k != PermissionDecisionReason :: hso[k]
  }

  function Alpha(st: St, j: Joiners): Option<Sum> {
    if !st.ok then None else
      var acc := st.acc;
      Some(Sum(PlainTop(acc.top), HookSpecificOutput in acc.top, PlainHso(acc.hso),
               if acc.contexts == [] then None else Some(Join(NonEmpty(acc.contexts), j.context)),
               if acc.messages == [] then None else Some(Join(acc.messages, j.message)),
               acc.decision, acc.err))
  }

  lemma JoinEmpty(parts: seq<string>, sep: string)
    requires forall p :: p in parts ==> p != ""
    ensures Join(parts, sep) == "" <==> parts == []
  {
    if |parts| > 1 {
      var n := |parts| - 1;
      assert parts[n] in parts;
      assert |Join(parts, sep)| >= |parts[n]|;
    } else if |parts| == 1 {
      assert parts[0] in parts;
    }
  }

  lemma {:induction false} NonEmptyParts(parts: seq<string>)
    ensures forall p :: p in NonEmpty(parts) ==> p != ""
  {
    if parts != [] {
      NonEmptyParts(parts[..|parts| - 1]);
    }
  }

  lemma ContextsGrow(parts: seq<string>, s: string, sep: string)
    requires parts != []
    ensures Some(Join(NonEmpty(parts + [s]), sep)) == PlusContext(Some(Join(NonEmpty(parts), sep)), Some(s), sep)
  {
    assert (parts + [s])[..|parts|] == parts;
    var kept := NonEmpty(parts);
    NonEmptyParts(parts);
    JoinEmpty(kept, sep);
    if s == "" {
      assert kept + [] == kept;
    } else {
      assert (kept + [s])[..|kept|] == kept;
    }
  }

  lemma ContextStarts(s: string, sep: string)
    ensures Join(NonEmpty([s]), sep) == s
  {
    assert [s][..0] == [] && NonEmpty([]) == [];
  }

  lemma MessagesGrow(parts: seq<string>, s: string, sep: string)
    ensures Join(parts + [s], sep) == if parts == [] then s else Join(parts, sep) + sep + s
  {
    assert (parts + [s])[..|parts|] == parts;
  }

  lemma PutPlainTop(top: map<Name, Json>, k: Name, v: Json)
    requires k != HookSpecificOutput && k != SystemMessage
    ensures var (top', ok) := PutIn(top, k, v, false);
      var (m, fits) := FieldSum(k, v);
      && (ok <==> fits && Agree(PlainTop(top), m))
      && (ok ==> PlainTop(top') == PlainTop(top) + m)
      && (HookSpecificOutput in top' <==> HookSpecificOutput in top) && (HookSpecificOutput in top ==> top'[HookSpecificOutput] == top[HookSpecificOutput])
      && (SystemMessage in top' <==> SystemMessage in top) && (SystemMessage in top ==> top'[SystemMessage] == top[SystemMessage])
  {
    if k in top {
      assert k in PlainTop(top) && PlainTop(top)[k] == top[k];
    }
  }

  lemma PutPlainHso(hso: map<Name, Json>, k: Name, v: Json)
    requires k != AdditionalContext && k != PermissionDecision && k != PermissionDecisionReason
    ensures var (hso', ok) := PutIn(hso, k, v, false);
      var (m, fits) := FieldSum(k, v);
      && (ok <==> fits && Agree(PlainHso(hso), m))
      && (ok ==> PlainHso(hso') == PlainHso(hso) + m)
      && (AdditionalContext in hso' <==> AdditionalContext in hso) && (AdditionalContext in hso ==> hso'[AdditionalContext] == hso[AdditionalContext])
      && (PermissionDecision in hso' <==> PermissionDecision in hso) && (PermissionDecision in hso ==> hso'[PermissionDecision] == hso[PermissionDecision])
      && (PermissionDecisionReason in hso' <==> PermissionDecisionReason in hso) && (PermissionDecisionReason in hso ==> hso'[PermissionDecisionReason] == hso[PermissionDecisionReason])
  {
    if k in hso {
      assert k in PlainHso(hso) && PlainHso(hso)[k] == hso[k];
    }
  }

  /** Adding a sum whose texts are empty changes only the fields. */
  lemma PlusFields(s: Sum, m: map<Name, Json>, n: map<Name, Json>, j: Joiners)
    ensures Plus(Some(s), Some(ZERO.(top := m, hso := n)), j) ==
      if Agree(s.top, m) && Agree(s.hso, n) then Some(s.(top := s.top + m, hso := s.hso + n)) else None
  {
    assert s.err + "" == s.err;
  }

  lemma AbsorbField(acc: Acc, k: Name, v: Json, j: Joiners)
    requires TypedAcc(acc) && k != HookSpecificOutput && k != SystemMessage
    ensures var st := Absorb(St(acc, true), TopField(k, v), false);
      TypedAcc(st.acc) && Alpha(st, j) == Plus(Alpha(St(acc, true), j), ElemSum(TopField(k, v)), j)
  {
    PutPlainTop(acc.top, k, v);
    var s := Alpha(St(acc, true), j).value;
    var (m, fits) := FieldSum(k, v);
    if fits {
      assert ElemSum(TopField(k, v)) == Some(ZERO.(top := m, hso := map[]));
      PlusFields(s, m, map[], j);
      assert s.hso + map[] == s.hso;
    }
  }

  lemma AbsorbHsoField(acc: Acc, k: Name, v: Json, j: Joiners)
    requires TypedAcc(acc) && k != AdditionalContext && k != PermissionDecision && k != PermissionDecisionReason
    ensures var st := Absorb(St(acc, true), HsoField(k, v), false);
      TypedAcc(st.acc) && Alpha(st, j) == Plus(Alpha(St(acc, true), j), ElemSum(HsoField(k, v)), j)
  {
    PutPlainHso(acc.hso, k, v);
    var s := Alpha(St(acc, true), j).value;
    var (m, fits) := FieldSum(k, v);
    if fits {
      assert ElemSum(HsoField(k, v)) == Some(ZERO.(top := map[], hso := m));
      PlusFields(s, map[], m, j);
      assert s.top + map[] == s.top;
    }
  }

  /** A named field goes in as its placeholder, or is there already. */
  lemma PutNamed(o: map<Name, Json>, k: Name, v: Json)
    requires !Inherited(k) && (k in o ==> o[k] == v)
    ensures PutIn(o, k, v, false) == (o[k := v], true)
  {
    if k in o {
      assert o[k := v] == o;
    }
  }

  /** Adding a sum without fields changes only the collected parts. */
  lemma PlusParts(s: Sum, z: Sum, j: Joiners)
    requires z.top == map[] && z.hso == map[]
    ensures Plus(Some(s), Some(z), j) ==
      Some(Sum(s.top, s.open || z.open, s.hso, PlusContext(s.context, z.context, j.context),
               PlusMessage(s.message, z.message, j.message), PlusDecision(s.decision, z.decision), s.err + z.err))
  {
    assert s.top + map[] == s.top && s.hso + map[] == s.hso;
  }

  lemma AbsorbOpen(acc: Acc, j: Joiners)
    requires TypedAcc(acc)
    ensures var st := Absorb(St(acc, true), OpenHso, false);
      TypedAcc(st.acc) && Alpha(st, j) == Plus(Alpha(St(acc, true), j), ElemSum(OpenHso), j)
  {
    PutNamed(acc.top, HookSpecificOutput, Obj([]));
    PlusParts(Alpha(St(acc, true), j).value, ZERO.(open := true), j);
    assert PlainTop(acc.top[HookSpecificOutput := Obj([])]) == PlainTop(acc.top);
    assert acc.err + "" == acc.err;
  }

  lemma AbsorbMessage(acc: Acc, m: string, j: Joiners)
    requires TypedAcc(acc)
    ensures var st := Absorb(St(acc, true), Message(m), false);
      TypedAcc(st.acc) && Alpha(st, j) == Plus(Alpha(St(acc, true), j), ElemSum(Message(m)), j)
  {
    PutNamed(acc.top, SystemMessage, Str(""));
    PlusParts(Alpha(St(acc, true), j).value, ZERO.(message := Some(m)), j);
    assert PlainTop(acc.top[SystemMessage := Str("")]) == PlainTop(acc.top);
    MessagesGrow(acc.messages, m, j.message);
    assert acc.err + "" == acc.err;
  }

  lemma AbsorbContext(acc: Acc, c: string, j: Joiners)
    requires TypedAcc(acc)
    ensures var st := Absorb(St(acc, true), Context(c), false);
      TypedAcc(st.acc) && Alpha(st, j) == Plus(Alpha(St(acc, true), j), ElemSum(Context(c)), j)
  {
    PutNamed(acc.hso, AdditionalContext, Str(""));
    PlusParts(Alpha(St(acc, true), j).value, ZERO.(context := Some(c)), j);
    assert PlainHso(acc.hso[AdditionalContext := Str("")]) == PlainHso(acc.hso);
    if acc.contexts == [] { ContextStarts(c, j.context); } else { ContextsGrow(acc.contexts, c, j.context); }
    assert acc.err + "" == acc.err && [] + [c] == [c];
  }

  lemma AbsorbDecide(acc: Acc, e: Elem, j: Joiners)
    requires TypedAcc(acc) && (e.Decide? || e.GiveReason? || e.Stderr?)
    ensures var st := Absorb(St(acc, true), e, false);
      TypedAcc(st.acc) && Alpha(st, j) == Plus(Alpha(St(acc, true), j), ElemSum(e), j)
  {
    PlusParts(Alpha(St(acc, true), j).value, ElemSum(e).value, j);
    assert acc.err + "" == acc.err;
    match e
    case Decide(_) =>
      PutNamed(acc.hso, PermissionDecision, Str(""));
      assert PlainHso(acc.hso[PermissionDecision := Str("")]) == PlainHso(acc.hso);
    case GiveReason =>
      PutNamed(acc.hso, PermissionDecisionReason, Str(""));
      assert PlainHso(acc.hso[PermissionDecisionReason := Str("")]) == PlainHso(acc.hso);
    case Stderr(_) =>
  }

  lemma AbsorbIsPlus(st: St, e: Elem, j: Joiners)
    requires TypedAcc(st.acc) && TypedElem(e) && st.ok
    ensures TypedAcc(Absorb(st, e, false).acc)
    ensures Alpha(Absorb(st, e, false), j) == Plus(Alpha(st, j), ElemSum(e), j)
  {
    match e
    case TopField(k, v) => AbsorbField(st.acc, k, v, j);
    case HsoField(k, v) => AbsorbHsoField(st.acc, k, v, j);
    case OpenHso => AbsorbOpen(st.acc, j);
    case Message(m) => AbsorbMessage(st.acc, m, j);
    case Context(c) => AbsorbContext(st.acc, c, j);
    case _ => AbsorbDecide(st.acc, e, j);
  }

  function SumAll(es: seq<Elem>, j: Joiners): Option<Sum> {
    if es == [] then Some(ZERO) else
      var n := |es| - 1;
      Plus(SumAll(es[..n], j), ElemSum(es[n]), j)
  }

  lemma PlusZero(a: Option<Sum>, j: Joiners)
    ensures Plus(a, Some(ZERO), j) == a && Plus(Some(ZERO), a, j) == a
  {
    if a.Some? {
      assert a.value.top + map[] == a.value.top == map[] + a.value.top;
      assert a.value.hso + map[] == a.value.hso == map[] + a.value.hso;
      assert a.value.err + "" == a.value.err == "" + a.value.err;
    }
  }

  /** Absorbing contributions one by one is adding their sum. */
  lemma {:induction false} FoldIsPlus(st: St, es: seq<Elem>, j: Joiners)
    requires TypedAcc(st.acc) && TypedElems(es) && st.ok
    ensures Fold(st, es, false).ok ==> TypedAcc(Fold(st, es, false).acc)
    ensures Alpha(Fold(st, es, false), j) == Plus(Alpha(st, j), SumAll(es, j), j)
  {
    if es == [] {
      PlusZero(Alpha(st, j), j);
    } else {
      var n := |es| - 1;
      assert forall e :: e in es[..n] ==> e in es;
      FoldIsPlus(st, es[..n], j);
      var mid := Fold(st, es[..n], false);
      if mid.ok {
        assert es[n] in es;
        AbsorbIsPlus(mid, es[n], j);
      }
      PlusAssociates(Alpha(st, j), SumAll(es[..n], j), ElemSum(es[n]), j);
    }
  }

  /** The sum of some results. */
  function SumOf(rs: seq<Res>, j: Joiners): Option<Sum> {
    if rs == [] then Some(ZERO) else
      var n := |rs| - 1;
      Plus(SumOf(rs[..n], j), if Elems(rs[n]).None? then None else SumAll(Elems(rs[n]).value, j), j)
  }

  predicate AllTyped(rs: seq<Res>) {
    forall r :: r in rs ==> Typed(r)
  }

  function AlphaOpt(st: Option<St>, j: Joiners): Option<Sum> {
    if st.None? then None else Alpha(st.value, j)
  }

  lemma {:induction false} CollectIsSum(rs: seq<Res>, j: Joiners)
    requires AllTyped(rs)
    ensures AlphaOpt(Collect(rs, false), j) == SumOf(rs, j)
    ensures Collect(rs, false).Some? && Collect(rs, false).value.ok ==> TypedAcc(Collect(rs, false).value.acc)
  {
    if rs != [] {
      var n := |rs| - 1;
      assert forall r :: r in rs[..n] ==> r in rs;
      CollectIsSum(rs[..n], j);
      assert rs[n] in rs;
      var before := Collect(rs[..n], false);
      if before.Some? && Elems(rs[n]).Some? {
        if before.value.ok {
          FoldIsPlus(before.value, Elems(rs[n]).value, j);
        } else {
          FalseStays(before.value, Elems(rs[n]).value, false);
        }
      }
    }
  }

  lemma {:induction false} SumAppend(xs: seq<Res>, ys: seq<Res>, j: Joiners)
    ensures SumOf(xs + ys, j) == Plus(SumOf(xs, j), SumOf(ys, j), j)
  {
    if ys == [] {
      assert xs + ys == xs;
      PlusZero(SumOf(xs, j), j);
    } else {
      var n := |ys| - 1;
      SumAppend(xs, ys[..n], j);
      assert (xs + ys)[..|xs + ys| - 1] == xs + ys[..n] && (xs + ys)[|xs + ys| - 1] == ys[n];
      PlusAssociates(SumOf(xs, j), SumOf(ys[..n], j), if Elems(ys[n]).None? then None else SumAll(Elems(ys[n]).value, j), j);
    }
  }

  // ---- the answer is the sum

  function SumTop(s: Sum): map<Name, Json> {
    if s.message.None? then s.top else s.top[SystemMessage := Str(s.message.value)]
  }

  function SumHso(s: Sum): map<Name, Json> {
    var a := if s.context.None? then s.hso else s.hso[AdditionalContext := Str(s.context.value)];
    var b := if s.decision.None? then a else a[PermissionDecision := Str(s.decision.value.value)];
    if s.decision.None? || s.decision.value.reason.None? then b else b[PermissionDecisionReason := s.decision.value.reason.value]
  }

  function RenderSum(s: Option<Sum>): Answer {
    if s.None? then Conflict else Merged(SumTop(s.value), if s.value.open then Some(SumHso(s.value)) else None, s.value.err)
  }

  // ---- a decision's reason is announced by the answer that gives it

  ghost predicate Closed(es: seq<Elem>) {
    forall d :: Decide(d) in es && d.reason.Some? ==> GiveReason in es
  }

  lemma {:induction false} HsoElemsClosed(h: seq<(Name, Json)>, i: nat)
    requires i <= |h|
    ensures forall d :: Decide(d) in HsoElems(h, h[..i]) ==> d.reason == Lookup(h, PermissionDecisionReason)
    ensures (exists n :: 0 <= n < i && h[n].0 == PermissionDecisionReason) ==> GiveReason in HsoElems(h, h[..i])
  {
    if i > 0 {
      HsoElemsClosed(h, i - 1);
      assert h[..i][..i - 1] == h[..i - 1];
    }
  }

  lemma FieldElemsClosed(k: Name, v: Json)
    ensures Closed(FieldElems(k, v))
  {
    if k.HookSpecificOutput? && v.Obj? {
      HsoElemsClosed(v.fields, |v.fields|);
      assert v.fields[..|v.fields|] == v.fields;
    }
  }

  lemma {:induction false} TopElemsClosed(fields: seq<(Name, Json)>)
    ensures Closed(TopElems(fields))
  {
    if fields != [] {
      var n := |fields| - 1;
      TopElemsClosed(fields[..n]);
      FieldElemsClosed(fields[n].0, fields[n].1);
    }
  }

  predicate ReasonKept(acc: Acc) {
    acc.decision.Some? && acc.decision.value.reason.Some? ==> PermissionDecisionReason in acc.hso
  }

  lemma AbsorbReason(st: St, e: Elem)
    ensures var st' := Absorb(st, e, false);
      && (PermissionDecisionReason in st.acc.hso || e.GiveReason? ==> PermissionDecisionReason in st'.acc.hso)
      && (st'.acc.decision == st.acc.decision || (e.Decide? && st'.acc.decision == Some(e.d)))
  {
  }

  lemma {:induction false} FoldReason(st: St, es: seq<Elem>)
    ensures var st' := Fold(st, es, false);
      && (PermissionDecisionReason in st.acc.hso || GiveReason in es ==> PermissionDecisionReason in st'.acc.hso)
      && (st'.acc.decision == st.acc.decision || (st'.acc.decision.Some? && Decide(st'.acc.decision.value) in es))
  {
    if es != [] {
      var n := |es| - 1;
      FoldReason(st, es[..n]);
      AbsorbReason(Fold(st, es[..n], false), es[n]);
      assert es == es[..n] + [es[n]];
    }
  }

  lemma {:induction false} CollectKeepsReason(rs: seq<Res>)
    requires AllTyped(rs)
    ensures Collect(rs, false).Some? && Collect(rs, false).value.ok ==> ReasonKept(Collect(rs, false).value.acc)
  {
    if rs != [] {
      var n := |rs| - 1;
      assert forall r :: r in rs[..n] ==> r in rs;
      CollectKeepsReason(rs[..n]);
      assert rs[n] in rs;
      var before := Collect(rs[..n], false);
      if before.Some? && Elems(rs[n]).Some? {
        var es := Elems(rs[n]).value;
        if before.value.ok {
          CollectIsSum(rs[..n], Joiners("", "", ""));
          FoldReason(before.value, es);
          if rs[n].out.Object? {
            TopElemsClosed(rs[n].out.fields);
          }
          assert Closed(es);
        } else {
          FalseStays(before.value, es, false);
        }
      }
    }
  }

  lemma RenderHsoIsSum(acc: Acc, j: Joiners)
    requires TypedAcc(acc) && ReasonKept(acc)
    ensures RenderHso(acc, j) == SumHso(Alpha(St(acc, true), j).value)
  {
  }

  lemma RenderTopIsSum(acc: Acc, j: Joiners)
    requires TypedAcc(acc)
    ensures Render(acc, j).top == SumTop(Alpha(St(acc, true), j).value)
  {
  }

  lemma RenderIsSum(acc: Acc, j: Joiners)
    requires TypedAcc(acc) && ReasonKept(acc)
    ensures Render(acc, j) == RenderSum(Alpha(St(acc, true), j))
  {
    RenderTopIsSum(acc, j);
    RenderHsoIsSum(acc, j);
  }

  /** The answer is the sum of the results. */
  lemma MergeIsSum(rs: seq<Res>, j: Joiners)
    requires AllTyped(rs)
    ensures Merge(rs, j, false) == RenderSum(SumOf(rs, j))
  {
    CollectIsSum(rs, j);
    CollectKeepsReason(rs);
    var st := Collect(rs, false);
    if st.Some? && st.value.ok {
      RenderIsSum(st.value.acc, j);
    }
  }
}
