/** Merging in groups is merging at once, a conflict in a group is one of the whole, and the answer keeps hook order. */
module MergeLaws {
  import opened Prelude
  import opened HookMerge
  import opened MergeSums

  // ---- an answer read back is its sum

  function FieldsMap(fields: seq<(Name, Json)>): map<Name, Json> {
    if fields == [] then map[] else
      var n := |fields| - 1;
      FieldsMap(fields[..n])[fields[n].0 := fields[n].1]
  }

  lemma {:induction false} FieldsMapKeys(fields: seq<(Name, Json)>, k: Name)
    ensures k in FieldsMap(fields) <==> exists i :: 0 <= i < |fields| && fields[i].0 == k
    ensures forall i :: 0 <= i < |fields| && UniqueKeys(fields) ==> fields[i].0 in FieldsMap(fields) && FieldsMap(fields)[fields[i].0] == fields[i].1
  {
    if fields != [] {
      FieldsMapKeys(fields[..|fields| - 1], k);
    }
  }

  predicate TypedHso(m: map<Name, Json>) {
    && (forall k :: k in m ==> !Inherited(k))
    && (AdditionalContext in m ==> m[AdditionalContext].Str?)
    && (PermissionDecision in m ==> m[PermissionDecision].Str?)
  }

  function ContextOf(m: map<Name, Json>): Option<string> {
    if AdditionalContext in m && m[AdditionalContext].Str? then Some(m[AdditionalContext].s) else None
  }

  function DecisionOf(m: map<Name, Json>, reason: Option<Json>): Option<Decision> {
    if PermissionDecision in m && m[PermissionDecision].Str? then Some(Decision(m[PermissionDecision].s, reason)) else None
  }

  function HsoSum(m: map<Name, Json>, reason: Option<Json>): Sum {
    ZERO.(hso := PlainHso(m), context := ContextOf(m), decision := DecisionOf(m, reason))
  }

  lemma {:induction false} HsoSumExtends(m: map<Name, Json>, k: Name, v: Json, reason: Option<Json>)
    requires k !in m && TypedHso(m[k := v])
    ensures HsoSum(m[k := v], reason) ==
      match k
      case AdditionalContext => HsoSum(m, reason).(context := Some(v.s))
      case PermissionDecision => HsoSum(m, reason).(decision := Some(Decision(v.s, reason)))
      case PermissionDecisionReason => HsoSum(m, reason)
      case _ => HsoSum(m, reason).(hso := PlainHso(m) + map[k := v])
  {
    assert k in m[k := v];
    if k.AdditionalContext? || k.PermissionDecision? || k.PermissionDecisionReason? {
      assert PlainHso(m[k := v]) == PlainHso(m);
    } else {
      assert PlainHso(m[k := v]) == PlainHso(m) + map[k := v];
    }
  }

  /** One more nested field, as the sum of a table grows by it. */
  lemma HsoElemSum(h: seq<(Name, Json)>, m: map<Name, Json>, k: Name, v: Json, j: Joiners)
    requires k !in m && TypedHso(m[k := v])
    ensures Plus(Some(HsoSum(m, Lookup(h, PermissionDecisionReason))), ElemSum(HsoElem(h, k, v)), j)
         == Some(HsoSum(m[k := v], Lookup(h, PermissionDecisionReason)))
  {
    var reason := Lookup(h, PermissionDecisionReason);
    assert k in m[k := v] && !Inherited(k);
    HsoSumExtends(m, k, v, reason);
    HsoStep(HsoSum(m, reason), k, v, reason, j);
    assert k.AdditionalContext? ==> v.Str?;
    assert k.PermissionDecision? ==> v.Str?;
  }

  lemma HsoStep(s: Sum, k: Name, v: Json, reason: Option<Json>, j: Joiners)
    requires s.top == map[] && s.err == "" && s.message.None? && !s.open && !Inherited(k) && k !in s.hso
    ensures s.context.None? && v.Str? ==> Plus(Some(s), ElemSum(Context(v.s)), j) == Some(s.(context := Some(v.s)))
    ensures s.decision.None? && v.Str? ==>
      Plus(Some(s), ElemSum(Decide(Decision(v.s, reason))), j) == Some(s.(decision := Some(Decision(v.s, reason))))
    ensures Plus(Some(s), ElemSum(GiveReason), j) == Some(s)
    ensures Plus(Some(s), ElemSum(HsoField(k, v)), j) == Some(s.(hso := s.hso + map[k := v]))
  {
    assert "" + "" == "" && map[] + s.top == map[];
    PlusZero(Some(s), j);
    PlusFields(s, map[], map[k := v], j);
    assert ElemSum(HsoField(k, v)) == Some(ZERO.(top := map[], hso := map[k := v]));
    if v.Str? {
      PlusParts(s, ZERO.(context := Some(v.s)), j);
      PlusParts(s, ZERO.(decision := Some(Decision(v.s, reason))), j);
    }
  }

  lemma {:induction false} HsoElemsSum(h: seq<(Name, Json)>, i: nat, j: Joiners)
    requires i <= |h| && UniqueKeys(h) && TypedHso(FieldsMap(h))
    ensures TypedHso(FieldsMap(h[..i]))
    ensures SumAll(HsoElems(h, h[..i]), j) == Some(HsoSum(FieldsMap(h[..i]), Lookup(h, PermissionDecisionReason)))
  {
    PrefixTyped(h, i);
    if i == 0 {
      assert PlainHso(map[]) == map[];
    } else {
      HsoElemsSum(h, i - 1, j);
      var p := h[..i];
      assert p[..i - 1] == h[..i - 1];
      FieldsMapKeys(h[..i - 1], h[i - 1].0);
      HsoElemSum(h, FieldsMap(h[..i - 1]), h[i - 1].0, h[i - 1].1, j);
      var es := HsoElems(h, h[..i - 1]);
      assert (es + [HsoElem(h, h[i - 1].0, h[i - 1].1)])[..|es|] == es;
    }
  }

  lemma PrefixTyped(h: seq<(Name, Json)>, i: nat)
    requires i <= |h| && UniqueKeys(h) && TypedHso(FieldsMap(h))
    ensures TypedHso(FieldsMap(h[..i]))
  {
    var p := h[..i];
    forall k ensures k in FieldsMap(p) ==> k in FieldsMap(h) && FieldsMap(p)[k] == FieldsMap(h)[k] {
      FieldsMapKeys(p, k);
      FieldsMapKeys(h, k);
      if k in FieldsMap(p) {
        var n :| 0 <= n < |p| && p[n].0 == k;
        assert h[n] == p[n];
      }
    }
  }

  lemma {:induction false} SumAllAppend(xs: seq<Elem>, ys: seq<Elem>, j: Joiners)
    ensures SumAll(xs + ys, j) == Plus(SumAll(xs, j), SumAll(ys, j), j)
  {
    if ys == [] {
      assert xs + ys == xs;
      PlusZero(SumAll(xs, j), j);
    } else {
      var n := |ys| - 1;
      SumAllAppend(xs, ys[..n], j);
      assert (xs + ys)[..|xs + ys| - 1] == xs + ys[..n] && (xs + ys)[|xs + ys| - 1] == ys[n];
      PlusAssociates(SumAll(xs, j), SumAll(ys[..n], j), ElemSum(ys[n]), j);
    }
  }

  lemma SumOne(e: Elem, j: Joiners)
    ensures SumAll([e], j) == ElemSum(e)
  {
    assert [e][..0] == [];
    PlusZero(ElemSum(e), j);
  }

  predicate TypedTop(m: map<Name, Json>) {
    && (forall k :: k in m ==> !Inherited(k))
    && (HookSpecificOutput in m ==> m[HookSpecificOutput].Obj? && var h := m[HookSpecificOutput].fields; UniqueKeys(h) && TypedHso(FieldsMap(h)))
    && (SystemMessage in m ==> m[SystemMessage].Str?)
  }

  function NestedSum(h: seq<(Name, Json)>): Sum {
    HsoSum(FieldsMap(h), Lookup(h, PermissionDecisionReason))
  }

  function TopSum(m: map<Name, Json>): Sum {
    var nested := if HookSpecificOutput in m && m[HookSpecificOutput].Obj? then NestedSum(m[HookSpecificOutput].fields) else ZERO;
    Sum(PlainTop(m), HookSpecificOutput in m, nested.hso, nested.context,
        if SystemMessage in m && m[SystemMessage].Str? then Some(m[SystemMessage].s) else None, nested.decision, "")
  }

  lemma NestedElemsSum(h: seq<(Name, Json)>, j: Joiners)
    requires UniqueKeys(h) && TypedHso(FieldsMap(h))
    ensures SumAll(FieldElems(HookSpecificOutput, Obj(h)), j) == Some(NestedSum(h).(open := true))
  {
    hide HsoElems, SumAll, PlainHso, ContextOf, DecisionOf, Plus;
    assert h[..|h|] == h;
    HsoElemsSum(h, |h|, j);
    SumOne(OpenHso, j);
    SumAllAppend([OpenHso], HsoElems(h, h), j);
    OpenPlus(NestedSum(h), j);
  }

  lemma OpenPlus(s: Sum, j: Joiners)
    requires s.err == ""
    ensures Plus(Some(ZERO.(open := true)), Some(s), j) == Some(s.(open := true))
  {
    assert map[] + s.hso == s.hso && "" + "" == "" && map[] + s.top == s.top;
  }

  lemma TopSumExtends(m: map<Name, Json>, k: Name, v: Json)
    requires k !in m && TypedTop(m[k := v])
    ensures TopSum(m[k := v]) ==
      if k.HookSpecificOutput? then
        var s := NestedSum(v.fields); TopSum(m).(open := true, hso := s.hso, context := s.context, decision := s.decision)
      else if k.SystemMessage? then TopSum(m).(message := Some(v.s))
      else TopSum(m).(top := PlainTop(m) + map[k := v])
  {
    assert k in m[k := v];
    if k.HookSpecificOutput? || k.SystemMessage? {
      assert PlainTop(m[k := v]) == PlainTop(m);
    } else {
      assert PlainTop(m[k := v]) == PlainTop(m) + map[k := v];
    }
  }

  /** Into a sum with nothing nested yet. */
  lemma PlusNested(s: Sum, n: Sum, j: Joiners)
    requires s.hso == map[] && s.context.None? && s.decision.None? && n.top == map[] && n.message.None? && n.err == ""
    ensures Plus(Some(s), Some(n.(open := true)), j)
         == Some(s.(open := true, hso := n.hso, context := n.context, decision := n.decision))
  {
    assert s.top + map[] == s.top && map[] + n.hso == n.hso && s.err + "" == s.err;
    assert PlusDecision(None, n.decision) == n.decision;
  }

  lemma FieldSumAdds(m: map<Name, Json>, k: Name, v: Json, j: Joiners)
    requires k !in m && TypedTop(m) && TypedTop(m[k := v])
    ensures Plus(Some(TopSum(m)), SumAll(FieldElems(k, v), j), j) == Some(TopSum(m[k := v]))
  {
    TopSumExtends(m, k, v);
    assert k in m[k := v] && m[k := v][k] == v && !Inherited(k);
    if k.HookSpecificOutput? {
      NestedElemsSum(v.fields, j);
      PlusNested(TopSum(m), NestedSum(v.fields), j);
    } else if k.SystemMessage? {
      SumOne(Message(v.s), j);
      PlusParts(TopSum(m), ZERO.(message := Some(v.s)), j);
      assert "" + "" == "";
    } else {
      SumOne(TopField(k, v), j);
      PlusFields(TopSum(m), map[k := v], map[], j);
      assert ElemSum(TopField(k, v)) == Some(ZERO.(top := map[k := v], hso := map[]));
      assert TopSum(m).hso + map[] == TopSum(m).hso;
    }
  }

  lemma FieldsMapPrefix(fields: seq<(Name, Json)>, i: nat)
    requires i <= |fields| && UniqueKeys(fields) && TypedTop(FieldsMap(fields))
    ensures TypedTop(FieldsMap(fields[..i]))
  {
    var p := fields[..i];
    forall k ensures k in FieldsMap(p) ==> k in FieldsMap(fields) && FieldsMap(p)[k] == FieldsMap(fields)[k] {
      FieldsMapKeys(p, k);
      FieldsMapKeys(fields, k);
      if k in FieldsMap(p) {
        var n :| 0 <= n < |p| && p[n].0 == k;
        assert fields[n] == p[n];
      }
    }
  }

  lemma {:induction false} TopElemsSum(fields: seq<(Name, Json)>, i: nat, j: Joiners)
    requires i <= |fields| && UniqueKeys(fields) && TypedTop(FieldsMap(fields))
    ensures SumAll(TopElems(fields[..i]), j) == Some(TopSum(FieldsMap(fields[..i])))
  {
    if i == 0 {
      assert PlainTop(map[]) == map[];
    } else {
      TopElemsSum(fields, i - 1, j);
      var p := fields[..i];
      assert p[..i - 1] == fields[..i - 1];
      FieldsMapPrefix(fields, i - 1);
      FieldsMapPrefix(fields, i);
      FieldsMapKeys(fields[..i - 1], fields[i - 1].0);
      SumAllAppend(TopElems(fields[..i - 1]), FieldElems(fields[i - 1].0, fields[i - 1].1), j);
      FieldSumAdds(FieldsMap(fields[..i - 1]), fields[i - 1].0, fields[i - 1].1, j);
    }
  }

  /** A result whose printed object is the answer, its fields in any order. */
  predicate Prints(r: Res, a: Answer) {
    && a.Merged? && r.code == Some(0) && r.err == a.err && r.out.Object? && UniqueKeys(r.out.fields)
    && var m := FieldsMap(r.out.fields);
       (if a.hso.None? then m == a.top
        else
          && HookSpecificOutput in m && m[HookSpecificOutput].Obj? && m == a.top[HookSpecificOutput := m[HookSpecificOutput]]
          && UniqueKeys(m[HookSpecificOutput].fields) && FieldsMap(m[HookSpecificOutput].fields) == a.hso.value)
  }

  /** No field the merge treats by name among the plain ones, and nothing nested without the table that holds it. */
  predicate PlainSum(s: Sum) {
    && (forall k :: k in s.top ==> !Inherited(k) && k != HookSpecificOutput && k != SystemMessage)
    && (forall k :: k in s.hso ==> !Inherited(k) && k != AdditionalContext && k != PermissionDecision && k != PermissionDecisionReason)
    && (!s.open ==> s.hso == map[] && s.context.None? && s.decision.None?)
  }

  lemma LookupIsMap(h: seq<(Name, Json)>, k: Name)
    requires UniqueKeys(h)
    ensures Lookup(h, k) == if k in FieldsMap(h) then Some(FieldsMap(h)[k]) else None
  {
    FieldsMapKeys(h, k);
  }

  lemma SumHsoReadsBack(s: Sum, h: seq<(Name, Json)>)
    requires PlainSum(s) && UniqueKeys(h) && FieldsMap(h) == SumHso(s)
    ensures TypedHso(FieldsMap(h))
    ensures NestedSum(h).hso == s.hso && NestedSum(h).context == s.context && NestedSum(h).decision == s.decision
  {
    LookupIsMap(h, PermissionDecisionReason);
    SumHsoParts(s);
  }

  lemma SumHsoParts(s: Sum)
    requires PlainSum(s)
    ensures var m := SumHso(s);
      && TypedHso(m) && PlainHso(m) == s.hso && ContextOf(m) == s.context
      && (PermissionDecision in m <==> s.decision.Some?)
      && (s.decision.Some? ==> m[PermissionDecision] == Str(s.decision.value.value))
      && (PermissionDecisionReason in m <==> s.decision.Some? && s.decision.value.reason.Some?)
      && (PermissionDecisionReason in m ==> m[PermissionDecisionReason] == s.decision.value.reason.value)
  {
  }

  lemma SumTopReadsBack(s: Sum, m: map<Name, Json>)
    requires PlainSum(s) && (m == SumTop(s) || (HookSpecificOutput in m && m == SumTop(s)[HookSpecificOutput := m[HookSpecificOutput]]))
    ensures PlainTop(m) == s.top
    ensures forall k :: k in m ==> !Inherited(k)
    ensures SystemMessage in m <==> s.message.Some?
    ensures s.message.Some? ==> m[SystemMessage] == Str(s.message.value)
  {
  }

  /** Reading an answer back gives the sum it was rendered from. */
  lemma PrintedSum(r: Res, s: Sum, j: Joiners)
    requires PlainSum(s) && Prints(r, RenderSum(Some(s)))
    ensures Elems(r).Some? && SumAll(Elems(r).value, j) == Some(s)
  {
    var m := FieldsMap(r.out.fields);
    SumTopReadsBack(s, m);
    if s.open {
      SumHsoReadsBack(s, m[HookSpecificOutput].fields);
    }
    assert r.out.fields[..|r.out.fields|] == r.out.fields;
    TopElemsSum(r.out.fields, |r.out.fields|, j);
    SumOne(Stderr(r.err), j);
    SumAllAppend([Stderr(r.err)], TopElems(r.out.fields), j);
    assert TopSum(m) == s.(err := "");
    PlusErr(r.err, TopSum(m), j);
  }

  lemma PlusErr(err: string, s: Sum, j: Joiners)
    requires s.err == ""
    ensures Plus(Some(ZERO.(err := err)), Some(s), j) == Some(s.(err := err))
  {
    assert map[] + s.top == s.top && map[] + s.hso == s.hso && err + "" == err;
  }

  // ---- groups

  predicate PlainFields(s: Sum) {
    && (forall k :: k in s.top ==> !Inherited(k) && k != HookSpecificOutput && k != SystemMessage)
    && (forall k :: k in s.hso ==> !Inherited(k) && k != AdditionalContext && k != PermissionDecision && k != PermissionDecisionReason)
  }

  predicate Nested(e: Elem) {
    e.Context? || e.Decide? || e.GiveReason? || e.HsoField?
  }

  lemma PlusKeepsPlain(a: Sum, b: Sum, j: Joiners)
    requires PlainFields(a) && PlainFields(b) && Plus(Some(a), Some(b), j).Some?
    ensures PlainFields(Plus(Some(a), Some(b), j).value)
  {
  }

  lemma ElemPlain(e: Elem)
    requires TypedElem(e) && ElemSum(e).Some?
    ensures PlainFields(ElemSum(e).value)
    ensures !Nested(e) ==> ElemSum(e).value.hso == map[] && ElemSum(e).value.context.None? && ElemSum(e).value.decision.None?
  {
  }

  lemma {:induction false} SumAllPlain(es: seq<Elem>, j: Joiners)
    requires TypedElems(es) && SumAll(es, j).Some?
    ensures PlainFields(SumAll(es, j).value)
  {
    if es != [] {
      var n := |es| - 1;
      assert forall e :: e in es[..n] ==> e in es;
      SumAllPlain(es[..n], j);
      ElemPlain(es[n]);
      PlusKeepsPlain(SumAll(es[..n], j).value, ElemSum(es[n]).value, j);
    }
  }

  lemma {:induction false} SumAllOpens(es: seq<Elem>, i: nat, j: Joiners)
    requires i < |es| && es[i].OpenHso? && SumAll(es, j).Some?
    ensures SumAll(es, j).value.open
  {
    var n := |es| - 1;
    if i < n {
      SumAllOpens(es[..n], i, j);
    }
  }

  lemma {:induction false} SumAllFlat(es: seq<Elem>, j: Joiners)
    requires TypedElems(es) && SumAll(es, j).Some?
    requires forall i :: 0 <= i < |es| ==> !Nested(es[i])
    ensures var s := SumAll(es, j).value; s.hso == map[] && s.context.None? && s.decision.None?
  {
    if es != [] {
      var n := |es| - 1;
      assert forall e :: e in es[..n] ==> e in es;
      SumAllFlat(es[..n], j);
      ElemPlain(es[n]);
    }
  }

  /** Nothing nested comes without the table that holds it. */
  predicate Opened(es: seq<Elem>) {
    (forall i :: 0 <= i < |es| ==> !Nested(es[i])) || exists i :: 0 <= i < |es| && es[i].OpenHso?
  }

  lemma {:induction false} TopElemsOpened(fields: seq<(Name, Json)>)
    ensures Opened(TopElems(fields))
  {
    if fields != [] {
      var n := |fields| - 1;
      TopElemsOpened(fields[..n]);
      OpenedAppend(TopElems(fields[..n]), FieldElems(fields[n].0, fields[n].1));
    }
  }

  lemma OpenedAppend(a: seq<Elem>, b: seq<Elem>)
    requires Opened(a) && ((b != [] && b[0].OpenHso?) || forall i :: 0 <= i < |b| ==> !Nested(b[i]))
    ensures Opened(a + b)
  {
    if i :| 0 <= i < |a| && a[i].OpenHso? {
      assert (a + b)[i].OpenHso?;
    } else if b != [] && b[0].OpenHso? {
      assert (a + b)[|a|].OpenHso?;
    }
  }

  lemma ResultPlain(r: Res, j: Joiners)
    requires Typed(r) && Elems(r).Some? && SumAll(Elems(r).value, j).Some?
    ensures PlainSum(SumAll(Elems(r).value, j).value)
  {
    var es := Elems(r).value;
    SumAllPlain(es, j);
    if r.out.Object? {
      TopElemsOpened(r.out.fields);
      var top := TopElems(r.out.fields);
      assert forall i :: 0 < i < |es| ==> es[i] == top[i - 1];
      if i :| 0 <= i < |top| && top[i].OpenHso? {
        assert es[i + 1].OpenHso?;
      }
    }
    if i :| 0 <= i < |es| && es[i].OpenHso? {
      SumAllOpens(es, i, j);
    } else {
      SumAllFlat(es, j);
    }
  }

  lemma PlusPlain(a: Sum, b: Sum, j: Joiners)
    requires PlainSum(a) && PlainSum(b) && Plus(Some(a), Some(b), j).Some?
    ensures PlainSum(Plus(Some(a), Some(b), j).value)
  {
  }

  lemma {:induction false} SumOfPlain(rs: seq<Res>, j: Joiners)
    requires AllTyped(rs) && SumOf(rs, j).Some?
    ensures PlainSum(SumOf(rs, j).value)
  {
    if rs != [] {
      var n := |rs| - 1;
      assert rs[n] in rs && forall r :: r in rs[..n] ==> r in rs;
      SumOfPlain(rs[..n], j);
      ResultPlain(rs[n], j);
      PlusPlain(SumOf(rs[..n], j).value, SumAll(Elems(rs[n]).value, j).value, j);
    }
  }

  lemma SumOfOne(r: Res, j: Joiners)
    ensures SumOf([r], j) == if Elems(r).None? then None else SumAll(Elems(r).value, j)
  {
    assert [r][..0] == [];
    PlusZero(if Elems(r).None? then None else SumAll(Elems(r).value, j), j);
  }

  lemma SumOfThree(xs: seq<Res>, ys: seq<Res>, zs: seq<Res>, j: Joiners)
    ensures SumOf(xs + ys + zs, j) == Plus(Plus(SumOf(xs, j), SumOf(ys, j), j), SumOf(zs, j), j)
  {
    SumAppend(xs + ys, zs, j);
    SumAppend(xs, ys, j);
  }

  /** The answer of a group, printed with its fields in any order, stands for the group wherever it is merged. */
  lemma GroupsMergeAlike(before: seq<Res>, group: seq<Res>, after: seq<Res>, r: Res, j: Joiners)
    requires AllTyped(before) && AllTyped(group) && AllTyped(after) && Typed(r)
    requires Prints(r, Merge(group, j, false))
    ensures Merge(before + [r] + after, j, false) == Merge(before + group + after, j, false)
  {
    MergeIsSum(group, j);
    SumOfPlain(group, j);
    PrintedSum(r, SumOf(group, j).value, j);
    SumOfOne(r, j);
    MergeIsSum(before + [r] + after, j);
    MergeIsSum(before + group + after, j);
    SumOfThree(before, [r], after, j);
    SumOfThree(before, group, after, j);
  }

  /** A conflict within a group is a conflict of everything the group is part of. */
  lemma ConflictAbsorbs(before: seq<Res>, group: seq<Res>, after: seq<Res>, j: Joiners)
    requires AllTyped(before) && AllTyped(group) && AllTyped(after)
    requires Merge(group, j, false) == Conflict
    ensures Merge(before + group + after, j, false) == Conflict
  {
    MergeIsSum(group, j);
    MergeIsSum(before + group + after, j);
    SumOfThree(before, group, after, j);
  }

  // ---- order

  function ContextsIn(es: seq<Elem>): seq<string> {
    if es == [] then [] else
      var n := |es| - 1;
      ContextsIn(es[..n]) + (if es[n].Context? then [es[n].s] else [])
  }

  function DecisionsIn(es: seq<Elem>): seq<Decision> {
    if es == [] then [] else
      var n := |es| - 1;
      DecisionsIn(es[..n]) + (if es[n].Decide? then [es[n].d] else [])
  }

  /** Every contribution of the results in hook order. */
  function AllElems(rs: seq<Res>): seq<Elem> {
    if rs == [] then [] else
      var n := |rs| - 1;
      AllElems(rs[..n]) + (if Elems(rs[n]).Some? then Elems(rs[n]).value else [])
  }

  lemma {:induction false} CollectIsFold(rs: seq<Res>, lenient: bool)
    ensures Collect(rs, lenient).Some? ==> Collect(rs, lenient).value == Fold(START_ST, AllElems(rs), lenient)
  {
    if rs != [] {
      var n := |rs| - 1;
      CollectIsFold(rs[..n], lenient);
      if Elems(rs[n]).Some? {
        FoldAppend(START_ST, AllElems(rs[..n]), Elems(rs[n]).value, lenient);
      }
    }
  }

  /** `d` is the first of the decisions with the least rank. */
  predicate FirstBest(ds: seq<Decision>, d: Decision) {
    exists i :: 0 <= i < |ds| && ds[i] == d
      && (forall n :: 0 <= n < i ==> Rank(ds[n].value) > Rank(d.value))
      && forall n :: i < n < |ds| ==> Rank(ds[n].value) >= Rank(d.value)
  }

  lemma BetterIsFirst(ds: seq<Decision>, held: Option<Decision>, d: Decision)
    requires held.Some? <==> ds != []
    requires held.Some? ==> FirstBest(ds, held.value)
    ensures FirstBest(ds + [d], Better(held, d))
  {
    var all := ds + [d];
    if held.None? {
      assert all[0] == d;
    } else {
      var i :| 0 <= i < |ds| && ds[i] == held.value
        && (forall n :: 0 <= n < i ==> Rank(ds[n].value) > Rank(held.value.value))
        && forall n :: i < n < |ds| ==> Rank(ds[n].value) >= Rank(held.value.value);
      if Rank(d.value) < Rank(held.value.value) {
        assert all[|ds|] == d;
      } else {
        assert all[i] == held.value;
      }
    }
  }

  /** The contexts and the decision held after some contributions are the ones those contributions made. */
  predicate Holds(acc: Acc, contexts: seq<string>, ds: seq<Decision>) {
    && acc.contexts == contexts
    && (acc.decision.Some? <==> ds != [])
    && (acc.decision.Some? ==> FirstBest(ds, acc.decision.value))
  }

  lemma AbsorbHolds(st: St, e: Elem, lenient: bool, contexts: seq<string>, ds: seq<Decision>)
    requires Holds(st.acc, contexts, ds)
    ensures Holds(Absorb(st, e, lenient).acc, contexts + (if e.Context? then [e.s] else []), ds + (if e.Decide? then [e.d] else []))
  {
    hide Better, FirstBest, PutIn;
    assert contexts + [] == contexts && ds + [] == ds;
    if e.Decide? {
      BetterIsFirst(ds, st.acc.decision, e.d);
    }
  }

  lemma {:induction false} FoldKeepsOrder(es: seq<Elem>, lenient: bool)
    ensures Holds(Fold(START_ST, es, lenient).acc, ContextsIn(es), DecisionsIn(es))
  {
    if es != [] {
      var n := |es| - 1;
      FoldKeepsOrder(es[..n], lenient);
      AbsorbHolds(Fold(START_ST, es[..n], lenient), es[n], lenient, ContextsIn(es[..n]), DecisionsIn(es[..n]));
    }
  }

  /** The decision an answer shows, with its reason if it has one. */
  predicate GivenBy(h: map<Name, Json>, d: Decision) {
    && PermissionDecision in h && h[PermissionDecision] == Str(d.value)
    && (PermissionDecisionReason in h <==> d.reason.Some?)
    && (d.reason.Some? ==> h[PermissionDecisionReason] == d.reason.value)
  }

  /**
   The merged answer of typed results joins their nonempty contexts in hook order, and its decision and reason are those of the
   first hook whose decision has the least rank.
   */
  lemma AnswerKeepsHookOrder(rs: seq<Res>, j: Joiners)
    requires AllTyped(rs) && Merge(rs, j, false).Merged? && Merge(rs, j, false).hso.Some?
    ensures var h, es := Merge(rs, j, false).hso.value, AllElems(rs);
      && (AdditionalContext in h <==> ContextsIn(es) != [])
      && (AdditionalContext in h ==> h[AdditionalContext] == Str(Join(NonEmpty(ContextsIn(es)), j.context)))
      && (PermissionDecision in h <==> DecisionsIn(es) != [])
      && (PermissionDecision in h ==> exists d :: FirstBest(DecisionsIn(es), d) && GivenBy(h, d))
  {
    CollectIsFold(rs, false);
    FoldKeepsOrder(AllElems(rs), false);
    CollectIsSum(rs, j);
    CollectKeepsReason(rs);
    RenderShows(Collect(rs, false).value.acc, j);
  }

  lemma RenderShows(acc: Acc, j: Joiners)
    requires TypedAcc(acc) && ReasonKept(acc)
    ensures var h := RenderHso(acc, j);
      && (AdditionalContext in h <==> acc.contexts != [])
      && (AdditionalContext in h ==> h[AdditionalContext] == Str(Join(NonEmpty(acc.contexts), j.context)))
      && (PermissionDecision in h <==> acc.decision.Some?)
      && (acc.decision.Some? ==> GivenBy(h, acc.decision.value))
  {
  }
}
