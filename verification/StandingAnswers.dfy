/** Which hooks the answer printed for them stands for: just those that conflict by themselves, and those whose fields are typed. */
module StandingAnswers {
  import opened Prelude
  import opened HookMerge
  import opened MergeSums
  import opened MergeLaws
  import opened UntypedAnswers
  import HookCombine

  // ---- an untyped field among the contributions

  /** A field the merge treats by name, without the type it treats. */
  predicate Untyped(f: Named, e: Elem) {
    match f
    case InContext => e.HsoField? && e.k == AdditionalContext && !e.v.Str?
    case InDecision => e.HsoField? && e.k == PermissionDecision && !e.v.Str?
    case InMessage => e.TopField? && e.k == SystemMessage && !e.v.Str?
    case AsTable => e.TopField? && e.k == HookSpecificOutput && !e.v.Obj?
  }

  lemma {:induction false} UntypedNested(h: seq<(Name, Json)>, fields: seq<(Name, Json)>, e: Elem)
    requires e in HsoElems(h, fields) && !TypedElem(e)
    ensures Untyped(InContext, e) || Untyped(InDecision, e)
  {
    var n := |fields| - 1;
    if e in HsoElems(h, fields[..n]) {
      UntypedNested(h, fields[..n], e);
    }
  }

  lemma {:induction false} UntypedField(fields: seq<(Name, Json)>, e: Elem) returns (f: Named)
    requires e in TopElems(fields) && !TypedElem(e)
    ensures Untyped(f, e)
  {
    var n := |fields| - 1;
    var (k, v) := fields[n];
    if e in TopElems(fields[..n]) {
      f := UntypedField(fields[..n], e);
    } else if k.HookSpecificOutput? && v.Obj? {
      UntypedNested(v.fields, v.fields, e);
      f := if Untyped(InContext, e) then InContext else InDecision;
    } else {
      f := if k.SystemMessage? then InMessage else AsTable;
    }
  }

  lemma UntypedOf(r: Res) returns (f: Named, e: Elem)
    requires Elems(r).Some? && !Typed(r)
    ensures e in Elems(r).value && Untyped(f, e)
  {
    e :| e in Elems(r).value && !TypedElem(e);
    f := UntypedField(r.out.fields, e);
  }

  // ---- what was set stays set

  lemma AbsorbKeeps(st: St, x: Elem, e: Elem)
    requires e.TopField? || e.HsoField?
    requires e.k in HookCombine.TableOf(st.acc, e)
    ensures var m := HookCombine.TableOf(Absorb(st, x, false).acc, e);
      e.k in m && m[e.k] == HookCombine.TableOf(st.acc, e)[e.k]
  {
  }

  lemma {:induction false} FieldIsKept(st: St, es: seq<Elem>, e: Elem)
    requires e in es && (e.TopField? || e.HsoField?) && !Inherited(e.k) && Fold(st, es, false).ok
    ensures var m := HookCombine.TableOf(Fold(st, es, false).acc, e); e.k in m && m[e.k] == e.v
  {
    var n := |es| - 1;
    assert es == es[..n] + [es[n]];
    if e in es[..n] {
      FieldIsKept(st, es[..n], e);
      AbsorbKeeps(Fold(st, es[..n], false), es[n], e);
    }
  }

  lemma {:induction false} FoldKeeps(st: St, es: seq<Elem>, e: Elem)
    requires (e.TopField? || e.HsoField?) && e.k in HookCombine.TableOf(st.acc, e)
    ensures var m := HookCombine.TableOf(Fold(st, es, false).acc, e); e.k in m && m[e.k] == HookCombine.TableOf(st.acc, e)[e.k]
  {
    if es != [] {
      FoldKeeps(st, es[..|es| - 1], e);
      AbsorbKeeps(Fold(st, es[..|es| - 1], false), es[|es| - 1], e);
    }
  }

  /** What the typed answer contributes last. */
  function LastOf(f: Named): Elem {
    match f
    case InContext => Context("")
    case InDecision => Decide(Decision("allow", None))
    case InMessage => Message("")
    case AsTable => OpenHso
  }

  lemma LastConflicts(st: St, f: Named, e: Elem)
    requires Untyped(f, e)
    requires var m := HookCombine.TableOf(st.acc, e); e.k in m && m[e.k] == e.v
    ensures !Absorb(st, LastOf(f), false).ok
  {
  }

  lemma WitnessEndsIn(f: Named)
    ensures Elems(Witness(f)).Some?
    ensures var es := Elems(Witness(f)).value; es != [] && es[|es| - 1] == LastOf(f)
  {
    ElemsOfOnly(f, WitnessValue(f));
    hide Elems;
    assert Lookup([(PermissionDecision, Str("allow"))], PermissionDecisionReason) == None;
  }

  /** A typed answer after an untyped one with the same field conflicts with it. */
  lemma WitnessConflicts(st: St, f: Named, e: Elem)
    requires Untyped(f, e)
    requires var m := HookCombine.TableOf(st.acc, e); e.k in m && m[e.k] == e.v
    ensures Elems(Witness(f)).Some? && !Fold(st, Elems(Witness(f)).value, false).ok
  {
    WitnessEndsIn(f);
    hide Elems, Absorb;
    var es := Elems(Witness(f)).value;
    var n := |es| - 1;
    FoldKeeps(st, es[..n], e);
    LastConflicts(Fold(st, es[..n], false), f, e);
  }

  // ---- what is printed is typed, and merges with every typed witness

  predicate Uninherited(acc: Acc) {
    (forall k :: k in acc.top ==> !Inherited(k)) && forall k :: k in acc.hso ==> !Inherited(k)
  }

  lemma {:induction false} FoldUninherited(st: St, es: seq<Elem>)
    requires Uninherited(st.acc)
    ensures Uninherited(Fold(st, es, false).acc)
  {
    if es != [] {
      FoldUninherited(st, es[..|es| - 1]);
    }
  }

  lemma {:induction false} ListFields(m: map<Name, Json>) returns (fields: seq<(Name, Json)>)
    ensures UniqueKeys(fields) && FieldsMap(fields) == m
    decreases |m|
  {
    if m == map[] {
      fields := [];
    } else {
      var k :| k in m;
      var rest := m - {k};
      assert rest.Keys == m.Keys - {k} && |rest.Keys| < |m.Keys|;
      var before := ListFields(rest);
      fields := before + [(k, m[k])];
      FieldsMapKeys(before, k);
      assert fields[..|before|] == before;
      assert rest[k := m[k]] == m;
    }
  }

  lemma SomeIsPrinted(a: Answer) returns (q: Res)
    requires a.Merged? && HookSpecificOutput !in a.top
    ensures Prints(q, a)
  {
    if a.hso.None? {
      var fields := ListFields(a.top);
      q := Res(Some(0), Object(fields), a.err);
    } else {
      var h := ListFields(a.hso.value);
      var fields := ListFields(a.top[HookSpecificOutput := Obj(h)]);
      q := Res(Some(0), Object(fields), a.err);
    }
  }

  lemma RenderedIsTyped(q: Res, acc: Acc, j: Joiners)
    requires Prints(q, Render(acc, j)) && Uninherited(acc)
    ensures TypedTop(FieldsMap(q.out.fields))
  {
    var a, m := Render(acc, j), FieldsMap(q.out.fields);
    assert forall k :: k in a.top ==> k in acc.top;
    if a.hso.Some? {
      assert forall k :: k in a.hso.value ==> k in acc.hso;
    }
  }

  /** Contributions that set no field of either table have a sum that sets none. */
  lemma {:induction false} SumStaysBare(es: seq<Elem>, j: Joiners)
    requires forall e :: e in es ==> ElemSum(e).Some? && ElemSum(e).value.top == map[] == ElemSum(e).value.hso
    ensures var s := SumAll(es, j); s.Some? && s.value.top == map[] == s.value.hso
  {
    if es != [] {
      SumStaysBare(es[..|es| - 1], j);
    }
  }

  lemma WitnessSum(f: Named, j: Joiners)
    ensures Elems(Witness(f)).Some?
    ensures var s := SumAll(Elems(Witness(f)).value, j); s.Some? && s.value.top == map[] && s.value.hso == map[]
  {
    var v := WitnessValue(f);
    ElemsOfOnly(f, v);
    hide Elems;
    var es := OnlyElems(f, v);
    forall e | e in es ensures ElemSum(e).Some? && ElemSum(e).value.top == map[] == ElemSum(e).value.hso {
    }
    hide OnlyElems, ElemSum;
    SumStaysBare(es, j);
  }

  lemma PrintedSums(q: Res, j: Joiners)
    requires q.code == Some(0) && q.out.Object? && UniqueKeys(q.out.fields) && TypedTop(FieldsMap(q.out.fields))
    ensures Typed(q) && SumOf([q], j).Some?
  {
    var fields := q.out.fields;
    TypedMapIsTyped(fields);
    assert fields[..|fields|] == fields;
    TopElemsSum(fields, |fields|, j);
    hide TypedTop, TopSum;
    SumOne(Stderr(q.err), j);
    SumAllAppend([Stderr(q.err)], TopElems(fields), j);
    SumOfOne(q, j);
    hide TopElems, SumAll, SumOf;
    PlusErr(q.err, TopSum(FieldsMap(fields)), j) by { TopSumHasNoErr(FieldsMap(fields)); }
  }

  lemma TopSumHasNoErr(m: map<Name, Json>)
    ensures TopSum(m).err == ""
  {
  }

  lemma TypedMerges(q: Res, f: Named, j: Joiners)
    requires q.code == Some(0) && q.out.Object? && UniqueKeys(q.out.fields) && TypedTop(FieldsMap(q.out.fields))
    ensures Typed(q) && Typed(Witness(f)) && Merge([q, Witness(f)], j, false).Merged?
  {
    var w := Witness(f);
    OnlyIsTyped(f, WitnessValue(f));
    PrintedSums(q, j);
    WitnessSum(f, j);
    SumOfOne(w, j);
    assert [q] + [w] == [q, w];
    SumAppend([q], [w], j);
    MergeIsSum([q, w], j);
    hide Elems, SumAll, SumOf, TypedTop, Typed, Merge;
  }

  // ---- the law

  lemma UntypedDoesNotStand(r: Res, j: Joiners)
    requires !Typed(r) && Merge([r], j, false) != Conflict
    ensures !StandsFor(r, j)
  {
    assert [r][..0] == [];
    var es := Elems(r).value;
    var st := Fold(START_ST, es, false);
    assert Collect([r], false) == Some(st);
    var f, e := UntypedOf(r);
    FieldIsKept(START_ST, es, e);
    WitnessConflicts(st, f, e);
    CollectTwo(r, Witness(f));
    assert Merge([r, Witness(f)], j, false) == Conflict;
    FoldUninherited(START_ST, es);
    var q := SomeIsPrinted(Render(st.acc, j));
    RenderedIsTyped(q, st.acc, j);
    TypedMerges(q, f, j);
    hide Merge, Prints, Typed, Fold, Elems, Render;
    NotBefore(r, q, Witness(f), j);
  }

  lemma NotBefore(r: Res, q: Res, w: Res, j: Joiners)
    requires Typed(w) && Prints(q, Merge([r], j, false)) && Merge([q, w], j, false) != Merge([r, w], j, false)
    ensures !StandsFor(r, j)
  {
    hide Merge, Prints, Typed;
    var none: seq<Res> := [];
    assert AllTyped(none) && AllTyped([w]);
    assert none + [q] + [w] == [q, w] && none + [r] + [w] == [r, w];
  }

  /**
   What is printed for one hook, whatever it said, stands for it among any typed answers if and only if nothing is, its own fields being
   in conflict, or every field the merge treats by name has its type.
   */
  lemma PrintedStandsExactly(r: Res, j: Joiners)
    ensures StandsFor(r, j) <==> Merge([r], j, false) == Conflict || Typed(r)
  {
    if Typed(r) {
      TypedStandsFor(r, j);
    } else if Merge([r], j, false) != Conflict {
      UntypedDoesNotStand(r, j);
    }
  }
}
