/** The delivery that cannot be one exact answer: what the hooks said, merged leniently or one after another, and which blocks it keeps. */
module HookSequential {
  import opened Prelude
  import opened HookMerge
  import opened HookCombine

  predicate Said(r: Res) {
    r.code == Some(0) && r.out != Text("")
  }

  /** A plain text as a context of its own. */
  function AsContext(r: Res, event: string): Res {
    match r.out
    case Text(s) =>
      r.(out := Object([(HookSpecificOutput, Obj([(HookEventName, Str(event)), (AdditionalContext, Str(Strip(s)))]))]))
    case Object(_) => r
  }

  function AsContexts(rs: seq<Res>, event: string): seq<Res> {
    if rs == [] then [] else AsContexts(rs[..|rs| - 1], event) + [AsContext(rs[|rs| - 1], event)]
  }

  predicate IsObject(r: Res) {
    r.out.Object?
  }

  predicate IsPlain(r: Res) {
    r.out.Text?
  }

  /** What the hooks said; next to objects a plain text becomes one where plain text is model context (`contexts`). */
  function Spoken(rs: seq<Res>, event: string, contexts: bool): seq<Res> {
    var said := Keep(rs, Said);
    if contexts && (exists r :: r in said && IsObject(r)) then AsContexts(said, event) else said
  }

  /** The plain text next to objects goes to stderr; alone it is the answer. */
  function Sequential(rs: seq<Res>, j: Joiners, event: string, contexts: bool): Outcome {
    var spoken := Spoken(rs, event, contexts);
    var objects, plain := Keep(spoken, IsObject), PlainLines(Keep(spoken, IsPlain));
    var err := Errs(Keep(rs, (r: Res) => r.code.Some?));
    if objects == [] then Passed(Res(Some(0), Text(plain), err))
    else if |objects| == 1 then Passed(Res(Some(0), TidyOut(objects[0].out), err + plain))
    else match Tidied(Merge(objects, j, true))
      case Joined(top, hso, _) => Joined(top, hso, err + plain)
      case o => o
  }

  predicate Blocks(o: Outcome) {
    match o
    case Passed(r) => IsBlock(r)
    case Joined(top, hso, _) => FieldsBlock(top, hso)
    case Clash => false
  }

  // ---- what should decide

  function TopOf(r: Res): Option<Json> {
    if r.out.Object? then Lookup(r.out.fields, TopDecision) else None
  }

  predicate Denies(r: Res) {
    r.out.Object? && Lookup(NestedFields(r.out.fields), PermissionDecision) == Some(Str("deny"))
  }

  /** The top-level decision of the first that makes one. */
  function FirstTop(rs: seq<Res>): Option<Json> {
    if rs == [] then None else
      var before := FirstTop(rs[..|rs| - 1]);
      if before.Some? then before else TopOf(rs[|rs| - 1])
  }

  predicate SomeDenies(rs: seq<Res>) {
    exists r :: r in rs && Denies(r)
  }

  // ---- one object

  lemma DropOnlyEvent(h: seq<(Name, Json)>)
    requires forall i :: 0 <= i < |h| ==> h[i].0 == HookEventName
    ensures Lookup(h, PermissionDecision) == None
  {
  }

  lemma TidyBlocksAlike(out: Stdout)
    ensures JsonBlocks(TidyOut(out)) <==> JsonBlocks(out)
  {
    if JsonBlocks(out) && TidyOut(out) != out {
      var nested := NestedFields(out.fields);
      var h := Drop(nested, AdditionalContext);
      DropLookup(nested, AdditionalContext, PermissionDecision);
      DropLookup(out.fields, HookSpecificOutput, TopDecision);
      SetFieldLookup(out.fields, HookSpecificOutput, Obj(h), TopDecision);
      SetFieldLookup(out.fields, HookSpecificOutput, Obj(h), HookSpecificOutput);
      if forall i :: 0 <= i < |h| ==> h[i].0 == HookEventName {
        DropOnlyEvent(h);
      }
    }
    if !JsonBlocks(out) {
      TidyDoesNotBlock(out);
    }
  }

  // ---- several

  function TopIn(es: seq<Elem>): Option<Json> {
    if es == [] then None else
      var before := TopIn(es[..|es| - 1]);
      var e := es[|es| - 1];
      if before.Some? then before else if e.TopField? && e.k.TopDecision? then Some(e.v) else None
  }

  predicate DenyIn(es: seq<Elem>) {
    exists e :: e in es && e.Decide? && e.d.value == "deny"
  }

  lemma {:induction false} TopInAppend(a: seq<Elem>, b: seq<Elem>)
    ensures TopIn(a + b) == if TopIn(a).Some? then TopIn(a) else TopIn(b)
  {
    if b == [] {
      assert a + b == a;
    } else {
      assert (a + b)[..|a + b| - 1] == a + b[..|b| - 1];
      TopInAppend(a, b[..|b| - 1]);
    }
  }

  lemma {:induction false} LookupSnoc(fields: seq<(Name, Json)>, k: Name)
    requires fields != []
    ensures var n := |fields| - 1;
      Lookup(fields, k) == if Lookup(fields[..n], k).Some? then Lookup(fields[..n], k) else if fields[n].0 == k then Some(fields[n].1) else None
  {
    if |fields| > 1 {
      LookupSnoc(fields[1..], k);
      assert fields[1..][..|fields| - 2] == fields[..|fields| - 1][1..];
    }
  }

  lemma {:induction false} NoTopInHso(h: seq<(Name, Json)>, fields: seq<(Name, Json)>)
    ensures TopIn(HsoElems(h, fields)) == None
  {
    if fields != [] {
      var es := HsoElems(h, fields[..|fields| - 1]);
      NoTopInHso(h, fields[..|fields| - 1]);
      assert HsoElems(h, fields)[..|es|] == es;
    }
  }

  lemma TopInOne(e: Elem)
    ensures TopIn([e]) == if e.TopField? && e.k.TopDecision? then Some(e.v) else None
  {
    assert [e][..0] == [];
  }

  lemma TopInField(k: Name, v: Json)
    ensures TopIn(FieldElems(k, v)) == if k.TopDecision? then Some(v) else None
  {
    if k.HookSpecificOutput? && v.Obj? {
      TopInOne(OpenHso);
      NoTopInHso(v.fields, v.fields);
      TopInAppend([OpenHso], HsoElems(v.fields, v.fields));
    } else {
      TopInOne(FieldElems(k, v)[0]);
    }
  }

  lemma {:induction false} TopInTop(fields: seq<(Name, Json)>)
    ensures TopIn(TopElems(fields)) == Lookup(fields, TopDecision)
  {
    if fields != [] {
      var n := |fields| - 1;
      TopInTop(fields[..n]);
      LookupSnoc(fields, TopDecision);
      TopInField(fields[n].0, fields[n].1);
      TopInAppend(TopElems(fields[..n]), FieldElems(fields[n].0, fields[n].1));
    }
  }

  lemma {:induction false} DenyInHso(h: seq<(Name, Json)>, fields: seq<(Name, Json)>)
    ensures DenyIn(HsoElems(h, fields)) <==> exists i :: 0 <= i < |fields| && fields[i] == (PermissionDecision, Str("deny"))
  {
    if fields != [] {
      var n := |fields| - 1;
      DenyInHso(h, fields[..n]);
      var last := HsoElem(h, fields[n].0, fields[n].1);
      assert HsoElems(h, fields) == HsoElems(h, fields[..n]) + [last];
      if fields[n] == (PermissionDecision, Str("deny")) {
        assert last in HsoElems(h, fields);
      }
      if DenyIn(HsoElems(h, fields[..n])) {
        var e :| e in HsoElems(h, fields[..n]) && e.Decide? && e.d.value == "deny";
        assert e in HsoElems(h, fields);
      }
      assert forall i :: 0 <= i < n ==> fields[..n][i] == fields[i];
    }
  }

  lemma LookupIsIn(fields: seq<(Name, Json)>, k: Name, v: Json)
    requires UniqueKeys(fields)
    ensures Lookup(fields, k) == Some(v) <==> exists i :: 0 <= i < |fields| && fields[i] == (k, v)
  {
    if i :| 0 <= i < |fields| && fields[i] == (k, v) {
      LookupOnly(fields, i);
    }
  }

  /** The field is a table whose contributions deny. */
  predicate DeniesHere(field: (Name, Json)) {
    field.0.HookSpecificOutput? && field.1.Obj? && DenyIn(HsoElems(field.1.fields, field.1.fields))
  }

  lemma DenyInField(k: Name, v: Json)
    ensures DenyIn(FieldElems(k, v)) <==> DeniesHere((k, v))
    ensures DeniesHere((k, v)) ==> OpenHso in FieldElems(k, v)
  {
    if k.HookSpecificOutput? && v.Obj? {
      DenyInEither([OpenHso], HsoElems(v.fields, v.fields));
    }
  }

  /** A denial comes from the one table, and opens it. */
  lemma {:induction false} DenyInTop(fields: seq<(Name, Json)>)
    ensures DenyIn(TopElems(fields)) <==> exists f :: f in fields && DeniesHere(f)
    ensures DenyIn(TopElems(fields)) ==> OpenHso in TopElems(fields)
  {
    if fields != [] {
      var n := |fields| - 1;
      DenyInTop(fields[..n]);
      DenyInField(fields[n].0, fields[n].1);
      DenyInEither(TopElems(fields[..n]), FieldElems(fields[n].0, fields[n].1));
      assert TopElems(fields) == TopElems(fields[..n]) + FieldElems(fields[n].0, fields[n].1);
      hide DenyIn, FieldElems, TopElems, DeniesHere;
      assert forall f :: f in fields <==> f in fields[..n] || f == fields[n];
    }
  }

  lemma DenyInEither(a: seq<Elem>, b: seq<Elem>)
    ensures DenyIn(a + b) <==> DenyIn(a) || DenyIn(b)
  {
    if DenyIn(a) {
      var e :| e in a && e.Decide? && e.d.value == "deny";
      assert e in a + b;
    }
    if DenyIn(b) {
      var e :| e in b && e.Decide? && e.d.value == "deny";
      assert e in a + b;
    }
  }

  lemma ResultSays(r: Res)
    requires r.code == Some(0) && r.out.Object? && KeysOnce(r.out)
    ensures Elems(r).Some? && TopIn(Elems(r).value) == TopOf(r)
    ensures DenyIn(Elems(r).value) <==> Denies(r)
    ensures Denies(r) ==> OpenHso in Elems(r).value
  {
    var fields := r.out.fields;
    var top := TopElems(fields);
    TopInOne(Stderr(r.err));
    TopInAppend([Stderr(r.err)], top);
    TopInTop(fields);
    DenyInEither([Stderr(r.err)], top);
    DenyInTop(fields);
    DenyIsTheTables(fields);
  }

  lemma DenyIsTheTables(fields: seq<(Name, Json)>)
    requires KeysOnce(Object(fields))
    ensures (exists f :: f in fields && DeniesHere(f)) <==> Lookup(NestedFields(fields), PermissionDecision) == Some(Str("deny"))
  {
    var h := NestedFields(fields);
    DenyInHso(h, h);
    LookupIsIn(h, PermissionDecision, Str("deny"));
    hide DenyIn, HsoElems;
    if i :| 0 <= i < |fields| && fields[i].0.HookSpecificOutput? {
      OneTable(fields, i);
      assert DeniesHere(fields[i]) <==> fields[i].1.Obj? && DenyIn(HsoElems(h, h));
      if !fields[i].1.Obj? {
        assert h == [];
      }
    } else {
      assert forall f :: f in fields ==> !DeniesHere(f);
      assert h == [];
    }
  }

  lemma OneTable(fields: seq<(Name, Json)>, i: nat)
    requires UniqueKeys(fields) && i < |fields| && fields[i].0.HookSpecificOutput?
    ensures forall f :: f in fields && f.0.HookSpecificOutput? ==> f == fields[i]
    ensures NestedFields(fields) == if fields[i].1.Obj? then fields[i].1.fields else []
  {
    LookupOnly(fields, i);
  }

  /** What is collected decides as the contributions did: the first top-level decision, and a denial if there was one. */
  predicate Decided(acc: Acc, top: Option<Json>, deny: bool) {
    && (TopDecision in acc.top <==> top.Some?)
    && (top.Some? ==> acc.top[TopDecision] == top.value)
    && (deny <==> acc.decision.Some? && acc.decision.value.value == "deny")
    && (acc.decision.Some? ==> PermissionDecision in acc.hso)
  }

  lemma AbsorbDecides(st: St, e: Elem, top: Option<Json>, deny: bool)
    requires Decided(st.acc, top, deny)
    ensures Decided(Absorb(st, e, true).acc,
                    if top.Some? then top else if e.TopField? && e.k.TopDecision? then Some(e.v) else None,
                    deny || (e.Decide? && e.d.value == "deny"))
    ensures HookSpecificOutput in st.acc.top || e.OpenHso? ==> HookSpecificOutput in Absorb(st, e, true).acc.top
  {
  }

  lemma {:induction false} FoldDecides(st: St, es: seq<Elem>, top: Option<Json>, deny: bool)
    requires Decided(st.acc, top, deny)
    ensures Decided(Fold(st, es, true).acc, if top.Some? then top else TopIn(es), deny || DenyIn(es))
    ensures HookSpecificOutput in st.acc.top || OpenHso in es ==> HookSpecificOutput in Fold(st, es, true).acc.top
  {
    if es != [] {
      var n := |es| - 1;
      FoldDecides(st, es[..n], top, deny);
      AbsorbDecides(Fold(st, es[..n], true), es[n], if top.Some? then top else TopIn(es[..n]), deny || DenyIn(es[..n]));
      assert es == es[..n] + [es[n]];
      DenyInEither(es[..n], [es[n]]);
      assert DenyIn([es[n]]) <==> es[n].Decide? && es[n].d.value == "deny" by { assert es[n] in [es[n]]; }
      hide Fold, Absorb, Decided, DenyIn;
    }
  }

  lemma {:induction false} CollectDecides(rs: seq<Res>)
    requires forall r :: r in rs ==> r.code == Some(0) && r.out.Object? && KeysOnce(r.out)
    ensures Collect(rs, true).Some?
    ensures var acc := Collect(rs, true).value.acc;
      Decided(acc, FirstTop(rs), SomeDenies(rs)) && (SomeDenies(rs) ==> HookSpecificOutput in acc.top)
  {
    if rs != [] {
      var n := |rs| - 1;
      assert rs[n] in rs && forall r :: r in rs[..n] ==> r in rs;
      CollectDecides(rs[..n]);
      ResultSays(rs[n]);
      FoldDecides(Collect(rs[..n], true).value, Elems(rs[n]).value, FirstTop(rs[..n]), SomeDenies(rs[..n]));
      DeniesLast(rs);
      hide Fold, Decided, DenyIn, Elems, KeysOnce, SomeDenies, Denies;
    }
  }

  lemma DeniesLast(rs: seq<Res>)
    requires rs != []
    ensures SomeDenies(rs) <==> SomeDenies(rs[..|rs| - 1]) || Denies(rs[|rs| - 1])
  {
    var n := |rs| - 1;
    assert rs == rs[..n] + [rs[n]];
    if SomeDenies(rs[..n]) {
      var r :| r in rs[..n] && Denies(r);
      assert r in rs;
    }
    if Denies(rs[n]) {
      assert rs[n] in rs;
    }
  }

  lemma JoinedBlocksExactly(acc: Acc, j: Joiners, top: Option<Json>, deny: bool)
    requires Decided(acc, top, deny) && (deny ==> HookSpecificOutput in acc.top)
    ensures Blocks(Tidied(Render(acc, j))) <==> deny || top == Some(Str("block"))
  {
    var a := Render(acc, j);
    TidyKeepsDenial(a);
    assert TopDecision in a.top <==> top.Some?;
    assert deny ==> a.hso.Some? && PermissionDecision in a.hso.value && a.hso.value[PermissionDecision] == Str("deny");
  }

  lemma TidyKeepsDenial(a: Answer)
    requires a.Merged?
    ensures Tidied(a).Joined? && Tidied(a).top == a.top
    ensures FieldsBlock(a.top, Tidied(a).hso) <==> FieldsBlock(a.top, a.hso)
  {
    if a.hso.Some? && PermissionDecision in a.hso.value {
      var rest := map k | k in a.hso.value && k != AdditionalContext :: a.hso.value[k];
      assert PermissionDecision in rest;
    }
  }

  // ---- what was said

  lemma OneMore(rs: seq<Res>, r: Res)
    ensures FirstTop(rs + [r]) == if FirstTop(rs).Some? then FirstTop(rs) else TopOf(r)
    ensures SomeDenies(rs + [r]) <==> SomeDenies(rs) || Denies(r)
  {
    assert (rs + [r])[..|rs|] == rs;
    DeniesLast(rs + [r]);
  }

  lemma {:induction false} KeepSilent(rs: seq<Res>, p: Res -> bool)
    requires forall r :: r in rs && !p(r) ==> TopOf(r).None? && !Denies(r)
    ensures FirstTop(Keep(rs, p)) == FirstTop(rs) && (SomeDenies(Keep(rs, p)) <==> SomeDenies(rs))
  {
    hide Denies, SomeDenies, TopOf, FirstTop;
    if rs == [] {
      assert Keep(rs, p) == rs;
    } else {
      var n := |rs| - 1;
      assert rs == rs[..n] + [rs[n]] && rs[n] in rs && forall r :: r in rs[..n] ==> r in rs;
      KeepSilent(rs[..n], p);
      OneMore(rs[..n], rs[n]);
      var kept := Keep(rs[..n], p);
      assert Keep(rs, p) == if p(rs[n]) then kept + [rs[n]] else kept;
      OneMore(kept, rs[n]);
    }
  }

  lemma ContextSaysNothing(r: Res, event: string)
    requires r.out.Text?
    ensures var c := AsContext(r, event); c.out.Object? && TopOf(c) == None && !Denies(c) && KeysOnce(c.out)
  {
    var h := [(HookEventName, Str(event)), (AdditionalContext, Str(Strip(r.out.s)))];
    assert h[1..][1..] == [] && [(HookSpecificOutput, Obj(h))][1..] == [];
  }

  lemma {:induction false} ContextsSayTheSame(rs: seq<Res>, event: string)
    ensures FirstTop(AsContexts(rs, event)) == FirstTop(rs) && (SomeDenies(AsContexts(rs, event)) <==> SomeDenies(rs))
  {
    if rs != [] {
      var n := |rs| - 1;
      ContextsSayTheSame(rs[..n], event);
      if rs[n].out.Text? {
        ContextSaysNothing(rs[n], event);
      }
      var before, last := AsContexts(rs[..n], event), AsContext(rs[n], event);
      assert (before + [last])[..|before|] == before;
      DeniesLast(rs);
      DeniesLast(before + [last]);
      hide SomeDenies, KeysOnce;
    }
  }

  lemma {:induction false} ContextsAreObjects(rs: seq<Res>, event: string)
    requires forall r :: r in rs ==> r.code == Some(0) && KeysOnce(r.out)
    ensures forall r :: r in AsContexts(rs, event) ==> r.code == Some(0) && r.out.Object? && KeysOnce(r.out)
  {
    if rs != [] {
      var n := |rs| - 1;
      assert rs[n] in rs && forall r :: r in rs[..n] ==> r in rs;
      ContextsAreObjects(rs[..n], event);
      if rs[n].out.Text? {
        ContextSaysNothing(rs[n], event);
      }
      hide KeysOnce;
    }
  }

  /** The objects merged: finished with 0, their keys once, deciding just as all that was said. */
  lemma ObjectsDecide(rs: seq<Res>, event: string, contexts: bool)
    requires forall r :: r in rs ==> KeysOnce(r.out)
    ensures var objects := Keep(Spoken(rs, event, contexts), IsObject);
      && (forall r :: r in objects ==> r.code == Some(0) && r.out.Object? && KeysOnce(r.out))
      && FirstTop(objects) == FirstTop(Keep(rs, Said)) && (SomeDenies(objects) <==> SomeDenies(Keep(rs, Said)))
  {
    var said, spoken := Keep(rs, Said), Spoken(rs, event, contexts);
    KeepOnly(rs, Said);
    KeepOnly(spoken, IsObject);
    hide KeysOnce, FirstTop, SomeDenies, Keep;
    KeepSilent(spoken, IsObject);
    if spoken != said {
      ContextsSayTheSame(said, event);
      ContextsAreObjects(said, event);
    }
  }

  // ---- the law

  lemma OneObjectDecides(o: Res)
    requires o.code == Some(0) && o.out.Object?
    ensures FirstTop([o]) == TopOf(o) && (SomeDenies([o]) <==> Denies(o))
    ensures IsBlock(o) <==> SomeDenies([o]) || FirstTop([o]) == Some(Str("block"))
  {
    assert [o][..0] == [];
    assert o in [o];
  }

  lemma FinishedBlocks(r: Res)
    requires r.code == Some(0)
    ensures IsBlock(r) <==> JsonBlocks(r.out)
  {
  }

  lemma NoObjectDecides()
    ensures FirstTop([]) == None && !SomeDenies([])
  {
  }

  /**
   The sequential answer blocks if and only if a hook that exited 0 denies, or the first top-level decision among them is a block. So it
   invents no block and loses no denial, and loses a top-level block just when another decision comes first.
   */
  lemma SequentialBlocksExactly(rs: seq<Res>, j: Joiners, event: string, contexts: bool)
    requires forall r :: r in rs ==> KeysOnce(r.out)
    ensures Sequential(rs, j, event, contexts) != Clash
    ensures var said := Keep(rs, Said);
      Blocks(Sequential(rs, j, event, contexts)) <==> SomeDenies(said) || FirstTop(said) == Some(Str("block"))
  {
    var objects := Keep(Spoken(rs, event, contexts), IsObject);
    ObjectsDecide(rs, event, contexts);
    hide Spoken, Keep, Elems, KeysOnce, TidyOut, IsBlock, Render, Collect, FirstTop, SomeDenies;
    if objects == [] {
      NoObjectDecides();
    } else if |objects| == 1 {
      assert objects == [objects[0]] && objects[0] in objects;
      OneObjectDecides(objects[0]);
      TidyBlocksAlike(objects[0].out);
      FinishedBlocks(objects[0]);
      FinishedBlocks(objects[0].(out := TidyOut(objects[0].out)));
    } else {
      MergedBlocksExactly(objects, j);
      hide Merge;
    }
  }

  lemma MergedBlocksExactly(objects: seq<Res>, j: Joiners)
    requires forall r :: r in objects ==> r.code == Some(0) && r.out.Object? && KeysOnce(r.out)
    ensures Tidied(Merge(objects, j, true)).Joined?
    ensures Blocks(Tidied(Merge(objects, j, true))) <==> SomeDenies(objects) || FirstTop(objects) == Some(Str("block"))
  {
    hide Elems, KeysOnce, FirstTop, SomeDenies, Collect;
    LenientCollects(objects);
    CollectDecides(objects);
    JoinedBlocksExactly(Collect(objects, true).value.acc, j, FirstTop(objects), SomeDenies(objects));
    hide Tidied, Render;
    TidyKeepsDenial(Render(Collect(objects, true).value.acc, j)) by { IsMerged(Collect(objects, true).value.acc, j); }
  }

  lemma IsMerged(acc: Acc, j: Joiners)
    ensures Render(acc, j).Merged?
  {
  }

  lemma {:induction false} QuietDecidesNothing(rs: seq<Res>)
    requires forall r :: r in rs ==> !JsonBlocks(r.out)
    ensures FirstTop(rs) != Some(Str("block")) && !SomeDenies(rs)
  {
    if rs != [] {
      var n := |rs| - 1;
      assert rs[n] in rs && forall r :: r in rs[..n] ==> r in rs;
      QuietDecidesNothing(rs[..n]);
      DeniesLast(rs);
    }
  }

  /** Where it is used, no hook having blocked, it does not block. */
  lemma SequentialInventsNoBlock(rs: seq<Res>, j: Joiners, event: string, contexts: bool)
    requires forall r :: r in rs ==> KeysOnce(r.out) && !IsBlock(r)
    ensures !Blocks(Sequential(rs, j, event, contexts))
  {
    SequentialBlocksExactly(rs, j, event, contexts);
    KeepOnly(rs, Said);
    QuietDecidesNothing(Keep(rs, Said));
  }

  /** An approval before a block hides it, where all answers together would have blocked. */
  lemma BlockAfterApprovalIsLost(j: Joiners, event: string)
    ensures
      var approves := Res(Some(0), Object([(TopDecision, Str("approve"))]), "");
      var blocks := Res(Some(0), Object([(TopDecision, Str("block"))]), "");
      && Blocks(Combine([approves, blocks], j)) && !Blocks(Sequential([approves, blocks], j, event, false))
  {
    var approves := Res(Some(0), Object([(TopDecision, Str("approve"))]), "");
    var blocks := Res(Some(0), Object([(TopDecision, Str("block"))]), "");
    var rs := [approves, blocks];
    BlocksAfterwards(approves, blocks);
    KeepBoth(approves, blocks);
    BlockIsNeverLost(rs, j);
    SequentialBlocksExactly(rs, j, event, false);
  }

  lemma KeepBoth(a: Res, b: Res)
    requires Said(a) && Said(b)
    ensures Keep([a, b], Said) == [a, b]
  {
    assert [a, b][..1] == [a] && [a][..0] == [] && Keep([], Said) == [];
    assert Keep([a], Said) == [] + [a] == [a];
  }

  lemma BlocksAfterwards(a: Res, b: Res)
    requires a == Res(Some(0), Object([(TopDecision, Str("approve"))]), "") && b == Res(Some(0), Object([(TopDecision, Str("block"))]), "")
    ensures KeysOnce(a.out) && KeysOnce(b.out) && IsBlock(b) && b in [a, b]
    ensures FirstTop([a, b]) == Some(Str("approve")) && !SomeDenies([a, b])
  {
    assert a.out.fields[1..] == [] && b.out.fields[1..] == [];
    assert [a, b][..1] == [a] && [a][..0] == [] && [a, b][1] == b;
    assert TopOf(a) == Some(Str("approve"));
    assert FirstTop([a]) == Some(Str("approve"));
  }
}
