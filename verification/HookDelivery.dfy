/** What the combined answer is, from how many hooks spoke and what the blocking ones said. */
module HookDelivery {
  import opened Prelude
  import opened HookMerge
  import opened HookCombine

  // ---- who spoke

  /** The hook finished and was not silent. */
  predicate Spoke(r: Res) {
    r.code.Some? && !(r.code == Some(0) && r.out == Text("") && r.err == "")
  }

  predicate NoneBlocks(rs: seq<Res>) {
    forall r :: r in rs ==> !IsBlock(r)
  }

  lemma {:induction false} KeepAlike(rs: seq<Res>, p: Res -> bool, q: Res -> bool)
    requires forall r :: r in rs ==> (p(r) <==> q(r))
    ensures Keep(rs, p) == Keep(rs, q)
  {
    if rs != [] {
      var n := |rs| - 1;
      assert rs[n] in rs && forall r :: r in rs[..n] ==> r in rs;
      KeepAlike(rs[..n], p, q);
    }
  }

  lemma {:induction false} KeepOne(rs: seq<Res>, p: Res -> bool, i: nat)
    requires i < |rs| && p(rs[i]) && forall k :: 0 <= k < |rs| && k != i ==> !p(rs[k])
    ensures Keep(rs, p) == [rs[i]]
  {
    var n := |rs| - 1;
    if i < n {
      KeepOne(rs[..n], p, i);
      assert [rs[i]] + [] == [rs[i]];
    } else {
      forall r | r in rs[..n] ensures !p(r) {
      }
      KeepNone(rs[..n], p);
    }
  }

  /** When no hook spoke there is nothing to say. */
  lemma SilenceIsSilence(rs: seq<Res>, j: Joiners)
    requires forall r :: r in rs ==> !Spoke(r)
    ensures Combine(rs, j) == Passed(Res(Some(0), Text(""), ""))
  {
    KeepNone(rs, IsBlock);
    KeepNone(rs, Active);
  }

  /** The answer of the one hook that spoke is passed on: its code and stderr as they are, its output tidied if it exited 0. */
  lemma LoneIsPassedOn(rs: seq<Res>, i: nat, j: Joiners)
    requires NoneBlocks(rs) && i < |rs| && Spoke(rs[i]) && forall k :: 0 <= k < |rs| && k != i ==> !Spoke(rs[k])
    ensures Combine(rs, j) == Passed(Res(rs[i].code, if rs[i].code == Some(0) then TidyOut(rs[i].out) else rs[i].out, rs[i].err))
  {
    KeepNone(rs, IsBlock);
    KeepAlike(rs, Spoke, Active);
    KeepOne(rs, Spoke, i);
  }

  /** The answers of several that spoke are merged, in hook order, and tidied; a conflict is told. */
  lemma SeveralAreMerged(rs: seq<Res>, j: Joiners)
    requires NoneBlocks(rs) && |Keep(rs, Spoke)| >= 2
    ensures match Merge(Keep(rs, Spoke), j, false)
      case Conflict => Combine(rs, j) == Clash
      case Merged(top, hso, err) =>
        && Combine(rs, j).Joined? && Combine(rs, j).top == top && Combine(rs, j).err == err
        && TidiedTable(hso, Combine(rs, j).hso)
  {
    KeepNone(rs, IsBlock);
    KeepAlike(rs, Spoke, Active);
    hide Merge, TidyHso, TidiedTable, Keep, Blocked;
    match Merge(Keep(rs, Spoke), j, false)
    case Conflict =>
    case Merged(_, None, _) => TableOrNot(None);
    case Merged(_, Some(h), _) => TableOrNot(Some(h));
  }

  lemma TableOrNot(was: Option<map<Name, Json>>)
    ensures TidiedTable(was, if was.Some? && AdditionalContext in was.value && was.value[AdditionalContext] == Str("") then TidyHso(was.value) else was)
  {
    if was.Some? {
      var rest := map k | k in was.value && k != AdditionalContext :: was.value[k];
      assert forall k :: k in was.value ==> k == AdditionalContext || k in rest;
    }
  }

  /** The table as delivered: without an empty context, and not at all when that leaves nothing but its event name. */
  ghost predicate TidiedTable(was: Option<map<Name, Json>>, now: Option<map<Name, Json>>) {
    if was.None? || AdditionalContext !in was.value || was.value[AdditionalContext] != Str("") then now == was
    else
      && (now.None? <==> forall k :: k in was.value ==> k == AdditionalContext || k == HookEventName)
      && (now.Some? ==>
            && (forall k :: k in now.value <==> k in was.value && k != AdditionalContext)
            && forall k :: k in now.value ==> now.value[k] == was.value[k])
  }

  /** Tidying an output leaves every field as it was but an empty context, the table it leaves bare, and an object it leaves empty. */
  lemma TidyTakesLittle(fields: seq<(Name, Json)>)
    ensures var nested := NestedFields(fields);
      var out := TidyOut(Object(fields));
      var empty := Lookup(nested, AdditionalContext) == Some(Str(""));
      && (!empty ==> out == Object(fields))
      && (empty && out.Object? ==>
            && (forall k :: k != HookSpecificOutput ==> Lookup(out.fields, k) == Lookup(fields, k))
            && Lookup(NestedFields(out.fields), AdditionalContext) == None
            && (Lookup(out.fields, HookSpecificOutput).Some? ==>
                  forall k :: k != AdditionalContext ==> Lookup(NestedFields(out.fields), k) == Lookup(nested, k))
            && (Lookup(out.fields, HookSpecificOutput).None? ==>
                  forall k :: k != AdditionalContext && k != HookEventName ==> Lookup(nested, k) == None))
      && (out.Text? ==>
            && out.s == "" && empty
            && (forall k :: k != HookSpecificOutput ==> Lookup(fields, k) == None)
            && forall k :: k != AdditionalContext && k != HookEventName ==> Lookup(nested, k) == None)
  {
    var nested := NestedFields(fields);
    if Lookup(nested, AdditionalContext) == Some(Str("")) {
      var h := Drop(nested, AdditionalContext);
      LookupDropped(nested, AdditionalContext);
      LookupDropped(fields, HookSpecificOutput);
      forall k
        ensures k != AdditionalContext ==> Lookup(h, k) == Lookup(nested, k)
        ensures k != HookSpecificOutput ==> Lookup(Drop(fields, HookSpecificOutput), k) == Lookup(fields, k)
        ensures Lookup(SetField(fields, HookSpecificOutput, Obj(h)), k) == if k == HookSpecificOutput then Some(Obj(h)) else Lookup(fields, k)
      {
        if k != AdditionalContext { DropLookup(nested, AdditionalContext, k); }
        if k != HookSpecificOutput { DropLookup(fields, HookSpecificOutput, k); }
        SetFieldLookup(fields, HookSpecificOutput, Obj(h), k);
      }
      hide Drop, SetField;
    }
  }

  // ---- blocks

  /** The lines that the reasons make, one block of text. */
  function ReasonLines(blockers: seq<Res>, j: Joiners): string {
    var joined := Join(NonEmpty(Reasons(blockers)), j.reason);
    if joined == "" then "" else Line(joined)
  }

  /**
   Several blocks, or one with notes beside it: exit 2 just when one of them exits 2. Where none is an object, their plain texts and the
   notes are the output; else the first object is, with all reasons and messages, and nothing else of it is changed.
   */
  lemma BlockedIs(blockers: seq<Res>, j: Joiners, notes: string)
    requires blockers != [] && (forall b :: b in blockers ==> IsBlock(b)) && (|blockers| > 1 || notes != "")
    ensures var r := Blocked(blockers, j, notes);
      && (r.code == Some(2) <==> exists b :: b in blockers && b.code == Some(2))
      && (r.code == Some(0) <==> forall b :: b in blockers ==> b.code != Some(2))
      && (r.out.Text? <==> forall b :: b in blockers ==> !JsonBlocks(b.out))
      && (r.out.Text? ==> r.out.s == PlainLines(blockers) + notes && r.err == ReasonLines(blockers, j))
      && (r.out.Object? ==> r.err == (if r.code == Some(2) then ReasonLines(blockers, j) else Errs(blockers)) + notes)
      && (r.out.Object? ==>
            exists i :: FirstJson(blockers, i) && OnlyRewrites(blockers[i].out.fields, r.out.fields)
                        && (Messages(blockers) == [] ==> Lookup(r.out.fields, SystemMessage) == Lookup(blockers[i].out.fields, SystemMessage)))
      && (r.out.Object? && Messages(blockers) != [] ==>
            Lookup(r.out.fields, SystemMessage) == Some(Str(Join(Messages(blockers), j.message))))
  {
    hide Reasons, Messages, PlainLines, Errs, Blocked, OnlyRewrites, FirstJson;
    if FirstJsonBlock(blockers).None? {
      PlainBlocks(blockers, j, notes);
    } else {
      ObjectBlocks(blockers, j, notes);
    }
  }

  lemma PlainBlocks(blockers: seq<Res>, j: Joiners, notes: string)
    requires blockers != [] && (forall b :: b in blockers ==> IsBlock(b)) && (|blockers| > 1 || notes != "")
    requires FirstJsonBlock(blockers).None?
    ensures Blocked(blockers, j, notes) == Res(Some(2), Text(PlainLines(blockers) + notes), ReasonLines(blockers, j))
    ensures blockers[0] in blockers && blockers[0].code == Some(2) && forall b :: b in blockers ==> !JsonBlocks(b.out)
  {
    assert blockers[0] in blockers;
    hide JsonBlocks, Reasons, PlainLines;
  }

  lemma ObjectBlocks(blockers: seq<Res>, j: Joiners, notes: string)
    requires blockers != [] && (|blockers| > 1 || notes != "") && FirstJsonBlock(blockers).Some?
    ensures var r := Blocked(blockers, j, notes);
      && r.code == Some(if exists b :: b in blockers && b.code == Some(2) then 2 else 0)
      && r.out.Object? && r.err == (if r.code == Some(2) then ReasonLines(blockers, j) else Errs(blockers)) + notes
      && (exists i :: FirstJson(blockers, i) && OnlyRewrites(blockers[i].out.fields, r.out.fields)
                      && (Messages(blockers) == [] ==> Lookup(r.out.fields, SystemMessage) == Lookup(blockers[i].out.fields, SystemMessage)))
      && (Messages(blockers) != [] ==> Lookup(r.out.fields, SystemMessage) == Some(Str(Join(Messages(blockers), j.message))))
      && exists b :: b in blockers && JsonBlocks(b.out)
  {
    var i := FirstJsonAt(blockers);
    var fields := blockers[i].out.fields;
    var joined := Join(NonEmpty(Reasons(blockers)), j.reason);
    var top := WithReason(fields, joined);
    var message := Str(Join(Messages(blockers), j.message));
    ReasonRewrites(fields, joined);
    MessageRewrites(fields, top, message);
    assert blockers[i] in blockers;
    assert Blocked(blockers, j, notes).out.fields == if Messages(blockers) == [] then top else SetField(top, SystemMessage, message);
    hide WithReason, SetField, Lookup, Reasons, Messages, JsonBlocks, OnlyRewrites;
  }

  lemma MessageRewrites(was: seq<(Name, Json)>, top: seq<(Name, Json)>, message: Json)
    requires forall k :: k != TopReason && k != HookSpecificOutput ==> Lookup(top, k) == Lookup(was, k)
    requires forall k :: k != PermissionDecisionReason ==> Lookup(NestedFields(top), k) == Lookup(NestedFields(was), k)
    ensures OnlyRewrites(was, top) && OnlyRewrites(was, SetField(top, SystemMessage, message))
    ensures Lookup(SetField(top, SystemMessage, message), SystemMessage) == Some(message)
    ensures Lookup(top, SystemMessage) == Lookup(was, SystemMessage)
  {
    forall k ensures Lookup(SetField(top, SystemMessage, message), k) == if k == SystemMessage then Some(message) else Lookup(top, k) {
      SetFieldLookup(top, SystemMessage, message, k);
    }
    hide SetField, Lookup;
  }

  /** The first of the blocks that is an object. */
  predicate FirstJson(blockers: seq<Res>, i: int) {
    && 0 <= i < |blockers| && blockers[i].out.Object? && JsonBlocks(blockers[i].out)
    && forall k :: 0 <= k < i ==> !JsonBlocks(blockers[k].out)
  }

  lemma {:induction false} FirstJsonAt(blockers: seq<Res>) returns (i: nat)
    requires FirstJsonBlock(blockers).Some?
    ensures FirstJson(blockers, i) && FirstJsonBlock(blockers).value == blockers[i]
  {
    if JsonBlocks(blockers[0].out) {
      i := 0;
    } else {
      i := FirstJsonAt(blockers[1..]);
      i := i + 1;
    }
  }

  /** Only the reason, the message and the nested reason may differ. */
  ghost predicate OnlyRewrites(was: seq<(Name, Json)>, now: seq<(Name, Json)>) {
    && (forall k :: k != TopReason && k != HookSpecificOutput && k != SystemMessage ==> Lookup(now, k) == Lookup(was, k))
    && (forall k :: k != PermissionDecisionReason ==> Lookup(NestedFields(now), k) == Lookup(NestedFields(was), k))
  }

  lemma ReasonRewrites(fields: seq<(Name, Json)>, joined: string)
    requires JsonBlocks(Object(fields))
    ensures var top := WithReason(fields, joined);
      && (forall k :: k != TopReason && k != HookSpecificOutput ==> Lookup(top, k) == Lookup(fields, k))
      && (forall k :: k != PermissionDecisionReason ==> Lookup(NestedFields(top), k) == Lookup(NestedFields(fields), k))
  {
    var h := SetField(NestedFields(fields), PermissionDecisionReason, Str(joined));
    forall k
      ensures Lookup(SetField(fields, TopReason, Str(joined)), k) == if k == TopReason then Some(Str(joined)) else Lookup(fields, k)
      ensures Lookup(SetField(fields, HookSpecificOutput, Obj(h)), k) == if k == HookSpecificOutput then Some(Obj(h)) else Lookup(fields, k)
      ensures Lookup(h, k) == if k == PermissionDecisionReason then Some(Str(joined)) else Lookup(NestedFields(fields), k)
    {
      SetFieldLookup(fields, TopReason, Str(joined), k);
      SetFieldLookup(fields, HookSpecificOutput, Obj(h), k);
      SetFieldLookup(NestedFields(fields), PermissionDecisionReason, Str(joined), k);
    }
    hide SetField;
  }
}
