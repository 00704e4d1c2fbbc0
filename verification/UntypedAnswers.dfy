/** Answers whose fields lack the type the merge treats by name: exactly those no answer of a group can stand for. */
module UntypedAnswers {
  import opened Prelude
  import opened HookMerge
  import opened MergeSums
  import opened MergeLaws

  /** The fields that the merge collects by name when they have their type. */
  datatype Named = InContext | InDecision | InMessage | AsTable

  /** One hook's answer giving `v` in the field and nothing else. */
  function Only(f: Named, v: Json): Res {
    match f
    case InContext => Res(Some(0), Object([(HookSpecificOutput, Obj([(AdditionalContext, v)]))]), "")
    case InDecision => Res(Some(0), Object([(HookSpecificOutput, Obj([(PermissionDecision, v)]))]), "")
    case InMessage => Res(Some(0), Object([(SystemMessage, v)]), "")
    case AsTable => Res(Some(0), Object([(HookSpecificOutput, v)]), "")
  }

  /** The type under which the field is collected; a table must be typed inside. */
  predicate Fits(f: Named, v: Json) {
    if f.AsTable? then v.Obj? else v.Str?
  }

  predicate TypedInside(f: Named, v: Json) {
    f.AsTable? && v.Obj? ==> UniqueKeys(v.fields) && TypedHso(FieldsMap(v.fields))
  }

  /** What any hook may print to stand for the group `[r]`, it does wherever typed answers surround it. */
  ghost predicate StandsFor(r: Res, j: Joiners) {
    forall q: Res, before: seq<Res>, after: seq<Res> ::
      AllTyped(before) && AllTyped(after) && Prints(q, Merge([r], j, false)) ==>
        Merge(before + [q] + after, j, false) == Merge(before + [r] + after, j, false)
  }

  // ---- with its type, every answer stands for its hook

  lemma {:induction false} TypedTable(h: seq<(Name, Json)>, fields: seq<(Name, Json)>)
    requires forall i :: 0 <= i < |fields| && (fields[i].0.AdditionalContext? || fields[i].0.PermissionDecision?) ==> fields[i].1.Str?
    ensures TypedElems(HsoElems(h, fields))
  {
    if fields != [] {
      TypedTable(h, fields[..|fields| - 1]);
    }
  }

  lemma {:induction false} TypedFields(fields: seq<(Name, Json)>)
    requires forall i :: 0 <= i < |fields| ==> TypedElems(FieldElems(fields[i].0, fields[i].1))
    ensures TypedElems(TopElems(fields))
  {
    if fields != [] {
      TypedFields(fields[..|fields| - 1]);
    }
  }

  lemma TypedMapIsTyped(fields: seq<(Name, Json)>)
    requires UniqueKeys(fields) && TypedTop(FieldsMap(fields))
    ensures TypedElems(TopElems(fields))
  {
    forall i | 0 <= i < |fields| ensures TypedElems(FieldElems(fields[i].0, fields[i].1)) {
      FieldsMapKeys(fields, fields[i].0);
      if fields[i].0.HookSpecificOutput? {
        var h := fields[i].1.fields;
        forall n | 0 <= n < |h| && (h[n].0.AdditionalContext? || h[n].0.PermissionDecision?) ensures h[n].1.Str? {
          FieldsMapKeys(h, h[n].0);
        }
        TypedTable(h, h);
      }
    }
    TypedFields(fields);
  }

  lemma OneField(k: Name, v: Json)
    ensures UniqueKeys([(k, v)]) && FieldsMap([(k, v)]) == map[k := v]
  {
    assert [(k, v)][..0] == [];
  }

  lemma OnlyIsTyped(f: Named, v: Json)
    requires Fits(f, v) && TypedInside(f, v)
    ensures Typed(Only(f, v))
  {
    var r := Only(f, v);
    OneField(AdditionalContext, v);
    OneField(PermissionDecision, v);
    OneField(r.out.fields[0].0, r.out.fields[0].1);
    assert r.out.fields == [(r.out.fields[0].0, r.out.fields[0].1)];
    TypedMapIsTyped(r.out.fields);
  }

  /** What is printed of typed answers merged is typed. */
  lemma PrintedIsTyped(q: Res, s: Sum)
    requires PlainSum(s) && Prints(q, RenderSum(Some(s)))
    ensures Typed(q)
  {
    var m := FieldsMap(q.out.fields);
    SumTopReadsBack(s, m);
    if s.open {
      SumHsoReadsBack(s, m[HookSpecificOutput].fields);
    }
    TypedMapIsTyped(q.out.fields);
  }

  lemma TypedStandsFor(r: Res, j: Joiners)
    requires Typed(r)
    ensures StandsFor(r, j)
  {
    forall q: Res, before: seq<Res>, after: seq<Res> | AllTyped(before) && AllTyped(after) && Prints(q, Merge([r], j, false))
      ensures Merge(before + [q] + after, j, false) == Merge(before + [r] + after, j, false)
    {
      MergeIsSum([r], j);
      SumOfPlain([r], j);
      PrintedIsTyped(q, SumOf([r], j).value);
      GroupsMergeAlike(before, [r], after, q, j);
    }
  }

  // ---- without it, none does

  /** A typed answer in the same field, and what is printed for the untyped one alone. */
  function Witness(f: Named): Res {
    match f
    case InContext => Only(InContext, Str(""))
    case InDecision => Only(InDecision, Str("allow"))
    case InMessage => Only(InMessage, Str(""))
    case AsTable => Only(AsTable, Obj([]))
  }

  function Printed(f: Named): Res {
    if f.InDecision? then Only(AsTable, Obj([])) else Witness(f)
  }

  /** The contributions of an answer with one field: its stderr first. */
  function OnlyElems(f: Named, v: Json): seq<Elem> {
    match f
    case InContext => [Stderr(""), OpenHso, HsoElem([(AdditionalContext, v)], AdditionalContext, v)]
    case InDecision => [Stderr(""), OpenHso, HsoElem([(PermissionDecision, v)], PermissionDecision, v)]
    case InMessage => [Stderr(""), if v.Str? then Message(v.s) else TopField(SystemMessage, v)]
    case AsTable => [Stderr(""), if v.Obj? then OpenHso else TopField(HookSpecificOutput, v)]
  }

  lemma OneTopElem(k: Name, v: Json)
    ensures TopElems([(k, v)]) == FieldElems(k, v)
    ensures HsoElems([(k, v)], [(k, v)]) == [HsoElem([(k, v)], k, v)]
  {
    assert [(k, v)][..0] == [] && [] + FieldElems(k, v) == FieldElems(k, v);
    assert HsoElems([(k, v)], []) == [];
  }

  lemma ElemsOfOnly(f: Named, v: Json)
    requires f.AsTable? && v.Obj? ==> v == Obj([])
    ensures Elems(Only(f, v)) == Some(OnlyElems(f, v))
  {
    OneTopElem(AdditionalContext, v);
    OneTopElem(PermissionDecision, v);
    OneTopElem(SystemMessage, v);
    OneTopElem(HookSpecificOutput, v);
    OneTopElem(HookSpecificOutput, Obj([(AdditionalContext, v)]));
    OneTopElem(HookSpecificOutput, Obj([(PermissionDecision, v)]));
    assert [OpenHso] + HsoElems([], []) == [OpenHso];
    assert [Stderr("")] + ([OpenHso] + [HsoElem([(AdditionalContext, v)], AdditionalContext, v)]) == OnlyElems(InContext, v);
    assert [Stderr("")] + ([OpenHso] + [HsoElem([(PermissionDecision, v)], PermissionDecision, v)]) == OnlyElems(InDecision, v);
    assert [Stderr("")] + FieldElems(SystemMessage, v) == OnlyElems(InMessage, v);
    if f.AsTable? {
      assert [Stderr("")] + FieldElems(HookSpecificOutput, v) == OnlyElems(AsTable, v);
    }
  }

  lemma FoldShort(st: St, es: seq<Elem>)
    ensures |es| == 2 ==> Fold(st, es, false) == Absorb(Absorb(st, es[0], false), es[1], false)
    ensures |es| == 3 ==> Fold(st, es, false) == Absorb(Absorb(Absorb(st, es[0], false), es[1], false), es[2], false)
  {
    if |es| == 2 || |es| == 3 {
      FoldOne(st, es[0], false);
      FoldSnoc(st, [es[0]], es[1], false);
      assert [es[0]] + [es[1]] == es[..2];
      if |es| == 2 {
        assert es[..2] == es;
      } else {
        FoldSnoc(st, es[..2], es[2], false);
        assert es[..2] + [es[2]] == es;
      }
    }
  }

  lemma CollectTwo(a: Res, b: Res)
    requires Elems(a).Some? && Elems(b).Some?
    ensures Collect([a], false) == Some(Fold(START_ST, Elems(a).value, false))
    ensures Collect([a, b], false) == Some(Fold(Fold(START_ST, Elems(a).value, false), Elems(b).value, false))
  {
    assert [a][..0] == [] && [a, b][..1] == [a];
  }

  /** What is collected of an answer with one field, alone. */
  function Held(f: Named, v: Json): Acc {
    match f
    case InContext =>
      START.(top := map[HookSpecificOutput := Obj([])], hso := map[AdditionalContext := if v.Str? then Str("") else v],
             contexts := if v.Str? then [v.s] else [])
    case InDecision =>
      START.(top := map[HookSpecificOutput := Obj([])], hso := map[PermissionDecision := if v.Str? then Str("") else v],
             decision := if v.Str? then Some(Decision(v.s, None)) else None)
    case InMessage =>
      START.(top := map[SystemMessage := if v.Str? then Str("") else v], messages := if v.Str? then [v.s] else [])
    case AsTable => START.(top := map[HookSpecificOutput := v])
  }

  lemma CollectOnly(f: Named, v: Json)
    requires f.AsTable? && v.Obj? ==> v == Obj([])
    ensures Fold(START_ST, OnlyElems(f, v), false) == St(Held(f, v), true)
  {
    FoldShort(START_ST, OnlyElems(f, v));
    hide Fold;
    assert "" + "" == "";
    var none: seq<string> := [];
    if v.Str? {
      assert none + [v.s] == [v.s];
    }
    assert Lookup([(PermissionDecision, v)], PermissionDecisionReason) == None;
  }

  /** The untyped answer, after itself, changes nothing. */
  lemma AfterItself(f: Named, v: Json)
    requires !Fits(f, v)
    ensures Fold(St(Held(f, v), true), OnlyElems(f, v), false) == St(Held(f, v), true)
  {
    FoldShort(St(Held(f, v), true), OnlyElems(f, v));
    assert "" + "" == "";
  }

  /** A typed answer after it conflicts with it. */
  lemma TypedAfterUntyped(f: Named, v: Json)
    requires !Fits(f, v)
    ensures !Fold(St(Held(f, v), true), OnlyElems(f, WitnessValue(f)), false).ok
  {
    FoldShort(St(Held(f, v), true), OnlyElems(f, WitnessValue(f)));
  }

  /** And it conflicts with a typed one before it. */
  lemma UntypedAfterTyped(f: Named, v: Json)
    requires !Fits(f, v)
    ensures !Fold(St(Held(f, WitnessValue(f)), true), OnlyElems(f, v), false).ok
  {
    FoldShort(St(Held(f, WitnessValue(f)), true), OnlyElems(f, v));
  }

  function WitnessValue(f: Named): (v: Json)
    ensures Only(f, v) == Witness(f)
  {
    match f
    case InContext => Str("")
    case InDecision => Str("allow")
    case InMessage => Str("")
    case AsTable => Obj([])
  }

  lemma WitnessFollows(f: Named)
    ensures var held := if f.InDecision? then Held(AsTable, Obj([])) else Held(f, WitnessValue(f));
      Fold(St(held, true), OnlyElems(f, WitnessValue(f)), false).ok
  {
    FoldShort(St(if f.InDecision? then Held(AsTable, Obj([])) else Held(f, WitnessValue(f)), true), OnlyElems(f, WitnessValue(f)));
    hide Fold;
  }

  lemma AfterPrinted(f: Named)
    ensures Elems(Printed(f)).Some? && Elems(Witness(f)).Some?
    ensures Fold(Fold(START_ST, Elems(Printed(f)).value, false), Elems(Witness(f)).value, false).ok
  {
    hide Elems, Fold, OnlyElems, Held;
    ElemsOfOnly(f, WitnessValue(f));
    ElemsOfOnly(AsTable, Obj([]));
    CollectOnly(f, WitnessValue(f));
    CollectOnly(AsTable, Obj([]));
    WitnessFollows(f);
  }

  lemma UntypedRendered(f: Named, v: Json, j: Joiners)
    requires !Fits(f, v)
    ensures Prints(Printed(f), Render(Held(f, v), j))
  {
    var acc, q := Held(f, v), Printed(f);
    var none: seq<string> := [];
    assert NonEmpty(none) == [] && Join(none, j.context) == "" && Join(none, j.message) == "";
    OneField(q.out.fields[0].0, q.out.fields[0].1);
    assert q.out.fields == [(q.out.fields[0].0, q.out.fields[0].1)];
    OneField(AdditionalContext, Str(""));
    if f.InMessage? {
      assert Render(acc, j).top == map[SystemMessage := Str("")];
    } else {
      assert Render(acc, j).top == map[];
      assert RenderHso(acc, j) == if f.InContext? then map[AdditionalContext := Str("")] else map[];
    }
  }

  /**
   Two hooks giving the same untyped value agree, and what is printed for one of them does not stand for it: not before a typed answer,
   and but for a decision, which is not printed at all, not before the second of the two.
   */
  lemma UntypedStandsForNothing(f: Named, v: Json, j: Joiners)
    requires !Fits(f, v)
    ensures Merge([Only(f, v), Only(f, v)], j, false) != Conflict
    ensures Typed(Witness(f)) && Prints(Printed(f), Merge([Only(f, v)], j, false))
    ensures Merge([Only(f, v), Witness(f)], j, false) == Conflict != Merge([Printed(f), Witness(f)], j, false)
    ensures !f.InDecision? ==> Merge([Printed(f), Only(f, v)], j, false) == Conflict
  {
    hide Fold, RenderHso, Prints, Elems, OnlyElems;
    ElemsOfOnly(f, v);
    CollectOnly(f, v);
    AfterItself(f, v);
    TypedAfterUntyped(f, v);
    ElemsOfOnly(f, WitnessValue(f));
    UntypedAfterTyped(f, v);
    CollectOnly(f, WitnessValue(f));
    AfterPrinted(f);
    CollectTwo(Printed(f), Only(f, v));
    CollectTwo(Only(f, v), Only(f, v));
    CollectTwo(Only(f, v), Witness(f));
    CollectTwo(Printed(f), Witness(f));
    UntypedRendered(f, v, j);
    OnlyIsTyped(f, WitnessValue(f));
  }

  /**
   The answer printed for one hook's field stands for the hook among any typed answers if and only if the field has its type: a text for
   a context, a decision or a message, a table for `hookSpecificOutput`.
   */
  lemma StandsForExactly(f: Named, v: Json, j: Joiners)
    requires TypedInside(f, v)
    ensures StandsFor(Only(f, v), j) <==> Fits(f, v)
  {
    if Fits(f, v) {
      OnlyIsTyped(f, v);
      TypedStandsFor(Only(f, v), j);
    } else {
      UntypedStandsForNothing(f, v, j);
      var q, w := Printed(f), Witness(f);
      hide Merge, Prints, Typed;
      var none: seq<Res> := [];
      assert AllTyped(none) && AllTyped([w]);
      assert none + [q] + [w] == [q, w] && none + [Only(f, v)] + [w] == [Only(f, v), w];
    }
  }
}
