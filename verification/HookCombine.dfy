/** One answer from the results of every hook of an event: blocks win, silence counts for nothing, conflicts are told. */
module HookCombine {
  import opened Prelude
  import opened HookMerge

  function NestedFields(fields: seq<(Name, Json)>): seq<(Name, Json)> {
    match Lookup(fields, HookSpecificOutput)
    case Some(Obj(h)) => h
    case _ => []
  }

  predicate DecidesBlock(fields: seq<(Name, Json)>) {
    Lookup(fields, TopDecision) == Some(Str("block"))
  }

  predicate JsonBlocks(out: Stdout) {
    out.Object? && (DecidesBlock(out.fields) || Lookup(NestedFields(out.fields), PermissionDecision) == Some(Str("deny")))
  }

  predicate IsBlock(r: Res) {
    r.code == Some(2) || (r.code.Some? && JsonBlocks(r.out))
  }

  /** Without its trailing newlines. */
  function Strip(s: string): string {
    if s != "" && s[|s| - 1] == '\n' then Strip(s[..|s| - 1]) else s
  }

  function TextOf(v: Option<Json>): string {
    match v
    case Some(Str(s)) => s
    case _ => ""
  }

  /** The reason the host shows for one block: the JSON block's own, else the hook's stderr. */
  function BlockReason(r: Res): string {
    Strip(if !JsonBlocks(r.out) then r.err
          else if DecidesBlock(r.out.fields) then TextOf(Lookup(r.out.fields, TopReason))
          else TextOf(Lookup(NestedFields(r.out.fields), PermissionDecisionReason)))
  }

  function Line(s: string): string {
    if s != "" && s[|s| - 1] == '\n' then s else s + "\n"
  }

  /** Set a field where it stands, or at the end. */
  function SetField(fields: seq<(Name, Json)>, k: Name, v: Json): seq<(Name, Json)> {
    if fields == [] then [(k, v)]
    else if fields[0].0 == k then [(k, v)] + fields[1..]
    else [fields[0]] + SetField(fields[1..], k, v)
  }

  function Reasons(blockers: seq<Res>): seq<string> {
    if blockers == [] then [] else Reasons(blockers[..|blockers| - 1]) + [BlockReason(blockers[|blockers| - 1])]
  }

  function Messages(rs: seq<Res>): seq<string> {
    if rs == [] then [] else
      var last := rs[|rs| - 1];
      var m := if last.out.Object? then TextOf(Lookup(last.out.fields, SystemMessage)) else "";
      Messages(rs[..|rs| - 1]) + (if m == "" then [] else [m])
  }

  function Errs(rs: seq<Res>): string {
    if rs == [] then "" else Errs(rs[..|rs| - 1]) + rs[|rs| - 1].err
  }

  /** The texts of the results that printed no object, each as whole lines. */
  function PlainLines(rs: seq<Res>): string {
    if rs == [] then "" else
      var last := rs[|rs| - 1];
      PlainLines(rs[..|rs| - 1]) + (if last.out.Text? && last.out.s != "" then Line(last.out.s) else "")
  }

  function FirstJsonBlock(blockers: seq<Res>): (r: Option<Res>)
    ensures r.Some? ==> r.value in blockers && JsonBlocks(r.value.out)
    ensures r.None? ==> forall b :: b in blockers ==> !JsonBlocks(b.out)
  {
    if blockers == [] then None
    else if JsonBlocks(blockers[0].out) then Some(blockers[0])
    else FirstJsonBlock(blockers[1..])
  }

  predicate AnyExit2(blockers: seq<Res>) {
    exists b :: b in blockers && b.code == Some(2)
  }

  function WithReason(fields: seq<(Name, Json)>, joined: string): seq<(Name, Json)> {
    if DecidesBlock(fields) then SetField(fields, TopReason, Str(joined))
    else SetField(fields, HookSpecificOutput, Obj(SetField(NestedFields(fields), PermissionDecisionReason, Str(joined))))
  }

  /** Several blocks in one answer, or the lone block as it was when there is nothing to add. */
  function Blocked(blockers: seq<Res>, j: Joiners, notes: string): Res
    requires blockers != []
  {
    if |blockers| == 1 && notes == "" then blockers[0]
    else
      var joined := Join(NonEmpty(Reasons(blockers)), j.reason);
      var reasonsErr := if joined == "" then "" else Line(joined);
      match FirstJsonBlock(blockers)
      case None => Res(Some(2), Text(PlainLines(blockers) + notes), reasonsErr)
      case Some(first) =>
        var top := WithReason(first.out.fields, joined);
        var messages := Messages(blockers);
        var top' := if messages == [] then top else SetField(top, SystemMessage, Str(Join(messages, j.message)));
        var exit2 := AnyExit2(blockers);
        Res(Some(if exit2 then 2 else 0), Object(top'), (if exit2 then reasonsErr else Errs(blockers)) + notes)
  }

  function Keep(rs: seq<Res>, p: Res -> bool): seq<Res> {
    if rs == [] then [] else
      var last := rs[|rs| - 1];
      Keep(rs[..|rs| - 1], p) + (if p(last) then [last] else [])
  }

  /** Text a hook printed that is neither blank nor an object, from hooks that exited 0 without blocking. */
  predicate Noted(r: Res) {
    r.code == Some(0) && !IsBlock(r) && r.out.Text? && !Blank(r.out.s)
  }

  predicate Active(r: Res) {
    r.code.Some? && (r.code != Some(0) || r.out != Text("") || r.err != "")
  }

  /** An empty context is left out, then a table left with nothing but its event name, then an object left empty. */
  function TidyHso(h: map<Name, Json>): Option<map<Name, Json>> {
    var rest := map k | k in h && k != AdditionalContext :: h[k];
    if forall k :: k in rest ==> k == HookEventName then None else Some(rest)
  }

  datatype Outcome =
    | Clash
    | Passed(r: Res)
    | Joined(top: map<Name, Json>, hso: Option<map<Name, Json>>, err: string)

  function Tidied(a: Answer): Outcome {
    match a
    case Conflict => Clash
    case Merged(top, None, err) => Joined(top, None, err)
    case Merged(top, Some(h), err) =>
      Joined(top, if AdditionalContext in h && h[AdditionalContext] == Str("") then TidyHso(h) else Some(h), err)
  }

  function Drop(fields: seq<(Name, Json)>, k: Name): seq<(Name, Json)> {
    if fields == [] then []
    else (if fields[0].0 == k then [] else [fields[0]]) + Drop(fields[1..], k)
  }

  function TidyOut(out: Stdout): Stdout {
    if out.Object? && Lookup(out.fields, HookSpecificOutput).Some? && Lookup(out.fields, HookSpecificOutput).value.Obj?
       && Lookup(NestedFields(out.fields), AdditionalContext) == Some(Str(""))
    then
      var h := Drop(NestedFields(out.fields), AdditionalContext);
      var top := if forall i :: 0 <= i < |h| ==> h[i].0 == HookEventName then Drop(out.fields, HookSpecificOutput)
                 else SetField(out.fields, HookSpecificOutput, Obj(h));
      if top == [] then Text("") else Object(top)
    else out
  }

  function Combine(rs: seq<Res>, j: Joiners): Outcome {
    var blockers := Keep(rs, IsBlock);
    var notes := PlainLines(Keep(rs, Noted));
    if blockers != [] then Passed(Blocked(blockers, j, notes))
    else
      var active := Keep(rs, Active);
      if active == [] then Passed(Res(Some(0), Text(""), ""))
      else if |active| == 1 then
        var a := active[0];
        Passed(if a.code == Some(0) then a.(out := TidyOut(a.out)) else a)
      else Tidied(Merge(active, j, false))
  }

  // ---- a block is never lost

  lemma {:induction false} SetFieldLookup(fields: seq<(Name, Json)>, k: Name, v: Json, q: Name)
    ensures Lookup(SetField(fields, k, v), q) == if q == k then Some(v) else Lookup(fields, q)
  {
    if fields == [] {
      assert [(k, v)][1..] == [];
    } else if fields[0].0 != k {
      SetFieldLookup(fields[1..], k, v, q);
      assert ([fields[0]] + SetField(fields[1..], k, v))[1..] == SetField(fields[1..], k, v);
    } else {
      assert ([(k, v)] + fields[1..])[1..] == fields[1..];
    }
  }

  lemma WithReasonBlocks(fields: seq<(Name, Json)>, joined: string)
    requires JsonBlocks(Object(fields))
    ensures var top := WithReason(fields, joined);
      && JsonBlocks(Object(top))
      && BlockReason(Res(Some(0), Object(top), "")) == Strip(joined)
  {
    var top := WithReason(fields, joined);
    if DecidesBlock(fields) {
      SetFieldLookup(fields, TopReason, Str(joined), TopDecision);
      SetFieldLookup(fields, TopReason, Str(joined), TopReason);
    } else {
      var h := NestedFields(fields);
      var h' := SetField(h, PermissionDecisionReason, Str(joined));
      SetFieldLookup(h, PermissionDecisionReason, Str(joined), PermissionDecision);
      SetFieldLookup(h, PermissionDecisionReason, Str(joined), PermissionDecisionReason);
      SetFieldLookup(fields, HookSpecificOutput, Obj(h'), HookSpecificOutput);
      SetFieldLookup(fields, HookSpecificOutput, Obj(h'), TopDecision);
    }
  }

  /** Adding a message changes neither the block nor its reason. */
  lemma MessageKeepsBlock(fields: seq<(Name, Json)>, v: Json)
    requires JsonBlocks(Object(fields))
    ensures var top := SetField(fields, SystemMessage, v);
      && JsonBlocks(Object(top))
      && BlockReason(Res(Some(0), Object(top), "")) == BlockReason(Res(Some(0), Object(fields), ""))
  {
    SetFieldLookup(fields, SystemMessage, v, TopDecision);
    SetFieldLookup(fields, SystemMessage, v, TopReason);
    SetFieldLookup(fields, SystemMessage, v, HookSpecificOutput);
  }

  lemma ReasonIgnoresRest(a: Res, b: Res)
    requires a.out == b.out && JsonBlocks(a.out)
    ensures BlockReason(a) == BlockReason(b)
  {
  }

  predicate NoNewlineEnd(s: string) {
    s == "" || s[|s| - 1] != '\n'
  }

  lemma {:induction false} StripEnds(s: string)
    ensures NoNewlineEnd(Strip(s))
  {
    if s != "" && s[|s| - 1] == '\n' {
      StripEnds(s[..|s| - 1]);
    }
  }

  lemma {:induction false} ReasonsEnd(blockers: seq<Res>)
    ensures forall p :: p in NonEmpty(Reasons(blockers)) ==> p != "" && p[|p| - 1] != '\n'
  {
    hide BlockReason, NonEmpty;
    if blockers == [] {
      NonEmptyNone();
    } else {
      var n := |blockers| - 1;
      ReasonsEnd(blockers[..n]);
      ReasonEnds(blockers[n]);
      NonEmptySnoc(Reasons(blockers[..n]), BlockReason(blockers[n]));
    }
  }

  lemma ReasonEnds(r: Res)
    ensures NoNewlineEnd(BlockReason(r))
  {
    StripEnds(if !JsonBlocks(r.out) then r.err
              else if DecidesBlock(r.out.fields) then TextOf(Lookup(r.out.fields, TopReason))
              else TextOf(Lookup(NestedFields(r.out.fields), PermissionDecisionReason)));
  }

  lemma NonEmptyNone()
    ensures NonEmpty([]) == []
  {
  }

  lemma NonEmptySnoc(parts: seq<string>, last: string)
    ensures NonEmpty(parts + [last]) == NonEmpty(parts) + (if last == "" then [] else [last])
  {
    assert (parts + [last])[..|parts|] == parts;
  }

  lemma JoinEnds(parts: seq<string>, sep: string)
    requires forall p :: p in parts ==> p != "" && p[|p| - 1] != '\n'
    ensures NoNewlineEnd(Join(parts, sep))
  {
    if parts != [] {
      var n := |parts| - 1;
      assert parts[n] in parts;
      if n > 0 {
        var s := Join(parts[..n], sep) + sep + parts[n];
        assert s[|s| - 1] == parts[n][|parts[n]| - 1];
      }
    }
  }

  lemma StripLine(s: string)
    requires NoNewlineEnd(s) && s != ""
    ensures Strip(Line(s)) == s
  {
    assert (s + "\n")[..|s|] == s;
  }

  /**
   The combined block is a block, and it gives every nonempty reason in hook order. A lone block with nothing noted beside it is
   answered as it was.
   */
  lemma BlockedKeepsReasons(blockers: seq<Res>, j: Joiners, notes: string)
    requires blockers != [] && forall b :: b in blockers ==> IsBlock(b)
    ensures var r := Blocked(blockers, j, notes);
      && IsBlock(r)
      && (|blockers| == 1 && notes == "" ==> r == blockers[0])
      && (|blockers| > 1 || notes != "" ==>
            BlockReason(r) == Join(NonEmpty(Reasons(blockers)), j.reason))
  {
    var r := Blocked(blockers, j, notes);
    if |blockers| == 1 && notes == "" {
      assert blockers[0] in blockers;
    } else {
      var joined := Join(NonEmpty(Reasons(blockers)), j.reason);
      ReasonsEnd(blockers);
      JoinEnds(NonEmpty(Reasons(blockers)), j.reason);
      assert Strip(joined) == joined;
      match FirstJsonBlock(blockers)
      case None =>
        if joined != "" { StripLine(joined); }
      case Some(first) =>
        var top := WithReason(first.out.fields, joined);
        WithReasonBlocks(first.out.fields, joined);
        if Messages(blockers) != [] {
          MessageKeepsBlock(top, Str(Join(Messages(blockers), j.message)));
        }
        ReasonIgnoresRest(r, Res(Some(0), r.out, ""));
    }
  }

  lemma {:induction false} KeepOnly(rs: seq<Res>, p: Res -> bool)
    ensures forall r :: r in Keep(rs, p) <==> r in rs && p(r)
  {
    if rs != [] {
      KeepOnly(rs[..|rs| - 1], p);
      assert rs == rs[..|rs| - 1] + [rs[|rs| - 1]];
    }
  }

  /** If any finished hook blocks, the combined answer blocks and carries every reason. */
  lemma BlockIsNeverLost(rs: seq<Res>, j: Joiners)
    requires exists r :: r in rs && IsBlock(r)
    ensures var blockers := Keep(rs, IsBlock);
      && blockers != []
      && Combine(rs, j).Passed? && IsBlock(Combine(rs, j).r)
      && (|blockers| > 1 || PlainLines(Keep(rs, Noted)) != "" ==>
            BlockReason(Combine(rs, j).r) == Join(NonEmpty(Reasons(blockers)), j.reason))
      && (|blockers| == 1 && PlainLines(Keep(rs, Noted)) == "" ==> Combine(rs, j).r == blockers[0])
  {
    KeepOnly(rs, IsBlock);
    BlockedKeepsReasons(Keep(rs, IsBlock), j, PlainLines(Keep(rs, Noted)));
  }

  lemma {:induction false} KeepNone(rs: seq<Res>, p: Res -> bool)
    requires forall r :: r in rs ==> !p(r)
    ensures Keep(rs, p) == []
  {
    if rs != [] {
      KeepNone(rs[..|rs| - 1], p);
    }
  }

  // ---- none is invented

  /** As every parsed object is: no key twice, nor in its `hookSpecificOutput`. */
  predicate KeysOnce(out: Stdout) {
    out.Object? ==> UniqueKeys(out.fields) && UniqueKeys(NestedFields(out.fields))
  }

  /** A contribution that blocks nothing. */
  predicate Calm(e: Elem) {
    && (e.TopField? && e.k.TopDecision? ==> e.v != Str("block"))
    && (e.Decide? ==> e.d.value != "deny")
    && (e.HsoField? && e.k.PermissionDecision? ==> e.v != Str("deny"))
  }

  predicate AllCalm(es: seq<Elem>) {
    forall e :: e in es ==> Calm(e)
  }

  lemma LookupOnly(fields: seq<(Name, Json)>, i: nat)
    requires UniqueKeys(fields) && i < |fields|
    ensures Lookup(fields, fields[i].0) == Some(fields[i].1)
  {
  }

  lemma {:induction false} CalmHso(h: seq<(Name, Json)>, fields: seq<(Name, Json)>)
    requires forall i :: 0 <= i < |fields| && fields[i].0.PermissionDecision? ==> fields[i].1 != Str("deny")
    ensures AllCalm(HsoElems(h, fields))
  {
    if fields != [] {
      CalmHso(h, fields[..|fields| - 1]);
    }
  }

  lemma {:induction false} CalmTop(fields: seq<(Name, Json)>, i: nat)
    requires i <= |fields| && KeysOnce(Object(fields)) && !JsonBlocks(Object(fields))
    ensures AllCalm(TopElems(fields[..i]))
  {
    if i > 0 {
      CalmTop(fields, i - 1);
      assert fields[..i][..i - 1] == fields[..i - 1];
      LookupOnly(fields, i - 1);
      var (k, v) := fields[i - 1];
      if k.HookSpecificOutput? && v.Obj? {
        forall n | 0 <= n < |v.fields| && v.fields[n].0.PermissionDecision? ensures v.fields[n].1 != Str("deny") {
          LookupOnly(v.fields, n);
        }
        CalmHso(v.fields, v.fields);
      }
    }
  }

  lemma NoBlockIsCalm(r: Res)
    requires !IsBlock(r) && KeysOnce(r.out) && Elems(r).Some?
    ensures AllCalm(Elems(r).value)
  {
    if r.out.Object? {
      assert r.out.fields[..|r.out.fields|] == r.out.fields;
      CalmTop(r.out.fields, |r.out.fields|);
    }
  }

  /** Nothing collected blocks. */
  predicate CalmAcc(acc: Acc) {
    && (TopDecision in acc.top ==> acc.top[TopDecision] != Str("block"))
    && (acc.decision.Some? ==> acc.decision.value.value != "deny")
  }

  lemma {:induction false} FoldStaysCalm(st: St, es: seq<Elem>, lenient: bool)
    requires CalmAcc(st.acc) && AllCalm(es)
    ensures CalmAcc(Fold(st, es, lenient).acc)
  {
    if es != [] {
      var n := |es| - 1;
      assert es[n] in es && forall e :: e in es[..n] ==> e in es;
      FoldStaysCalm(st, es[..n], lenient);
    }
  }

  lemma {:induction false} CollectStaysCalm(rs: seq<Res>, lenient: bool)
    requires forall r :: r in rs ==> !IsBlock(r) && KeysOnce(r.out)
    ensures Collect(rs, lenient).Some? ==> CalmAcc(Collect(rs, lenient).value.acc)
  {
    if rs != [] {
      var n := |rs| - 1;
      assert rs[n] in rs && forall r :: r in rs[..n] ==> r in rs;
      CollectStaysCalm(rs[..n], lenient);
      if Collect(rs, lenient).Some? {
        NoBlockIsCalm(rs[n]);
        FoldStaysCalm(Collect(rs[..n], lenient).value, Elems(rs[n]).value, lenient);
      }
    }
  }

  /** The fields of a joined answer make it a block. */
  predicate FieldsBlock(top: map<Name, Json>, hso: Option<map<Name, Json>>) {
    || (TopDecision in top && top[TopDecision] == Str("block"))
    || (hso.Some? && PermissionDecision in hso.value && hso.value[PermissionDecision] == Str("deny"))
  }

  lemma CalmRenders(acc: Acc, j: Joiners)
    requires CalmAcc(acc)
    ensures var a := Render(acc, j); !FieldsBlock(a.top, a.hso)
    ensures var o := Tidied(Render(acc, j)); o.Joined? && !FieldsBlock(o.top, o.hso)
  {
  }

  /** From hooks of which none blocked, neither an answer passed on nor one joined from several is a block. */
  lemma {:induction false} NoBlockIsInvented(rs: seq<Res>, j: Joiners)
    requires forall r :: r in rs ==> !IsBlock(r) && KeysOnce(r.out)
    ensures match Combine(rs, j)
      case Passed(r) => !IsBlock(r)
      case Joined(top, hso, _) => !FieldsBlock(top, hso)
      case Clash => true
  {
    KeepNone(rs, IsBlock);
    KeepOnly(rs, Active);
    var active := Keep(rs, Active);
    if |active| == 1 {
      assert active[0] in active;
      TidyDoesNotBlock(active[0].out);
    } else if |active| > 1 && Merge(active, j, false).Merged? {
      CollectStaysCalm(active, false);
      CalmRenders(Collect(active, false).value.acc, j);
    }
  }

  lemma DropNone(k: Name)
    ensures Drop([], k) == []
  {
  }

  lemma DropFirst(fields: seq<(Name, Json)>, k: Name)
    requires fields != []
    ensures Drop(fields, k) == if fields[0].0 == k then Drop(fields[1..], k) else [fields[0]] + Drop(fields[1..], k)
  {
    assert [] + Drop(fields[1..], k) == Drop(fields[1..], k);
  }

  lemma LookupFirst(fields: seq<(Name, Json)>, q: Name)
    requires fields != []
    ensures Lookup(fields, q) == if fields[0].0 == q then Some(fields[0].1) else Lookup(fields[1..], q)
  {
  }

  lemma TailOfCons(x: (Name, Json), rest: seq<(Name, Json)>)
    ensures ([x] + rest)[1..] == rest
  {
  }

  lemma {:induction false} DropLookup(fields: seq<(Name, Json)>, k: Name, q: Name)
    requires q != k
    ensures Lookup(Drop(fields, k), q) == Lookup(fields, q)
  {
    hide Lookup, Drop;
    if fields == [] {
      DropNone(k);
    } else {
      DropLookup(fields[1..], k, q);
      DropFirst(fields, k);
      LookupFirst(fields, q);
      if fields[0].0 != k {
        LookupFirst([fields[0]] + Drop(fields[1..], k), q);
        TailOfCons(fields[0], Drop(fields[1..], k));
      }
    }
  }

  lemma {:induction false} LookupDropped(fields: seq<(Name, Json)>, k: Name)
    ensures Lookup(Drop(fields, k), k) == None
  {
    if fields != [] {
      LookupDropped(fields[1..], k);
      DropFirst(fields, k);
      if fields[0].0 != k {
        LookupFirst([fields[0]] + Drop(fields[1..], k), k);
        TailOfCons(fields[0], Drop(fields[1..], k));
      }
    }
  }

  lemma TidyDoesNotBlock(out: Stdout)
    requires !JsonBlocks(out)
    ensures !JsonBlocks(TidyOut(out))
  {
    if TidyOut(out) != out {
      var h := Drop(NestedFields(out.fields), AdditionalContext);
      DropLookup(NestedFields(out.fields), AdditionalContext, PermissionDecision);
      DropLookup(out.fields, HookSpecificOutput, TopDecision);
      LookupDropped(out.fields, HookSpecificOutput);
      SetFieldLookup(out.fields, HookSpecificOutput, Obj(h), TopDecision);
      SetFieldLookup(out.fields, HookSpecificOutput, Obj(h), HookSpecificOutput);
    }
  }

  // ---- neutral hooks

  /** Killed at its timeout, or silent: exit 0, nothing printed, nothing on stderr. */
  predicate Neutral(r: Res) {
    r.code.None? || r == Res(Some(0), Text(""), "")
  }

  lemma {:induction false} KeepSkips(rs: seq<Res>, p: Res -> bool)
    requires forall r :: Neutral(r) ==> !p(r)
    ensures Keep(Keep(rs, r => !Neutral(r)), p) == Keep(rs, p)
  {
    if rs != [] {
      var n := |rs| - 1;
      var live := r => !Neutral(r);
      KeepSkips(rs[..n], p);
      var before := Keep(rs[..n], live);
      if Neutral(rs[n]) {
        assert before + [] == before && Keep(rs[..n], p) + [] == Keep(rs[..n], p);
      } else {
        assert (before + [rs[n]])[..|before|] == before;
      }
    }
  }

  /** Timed-out and silent hooks make no difference to the answer. */
  lemma NeutralHooksDoNotCount(rs: seq<Res>, j: Joiners)
    ensures Combine(Keep(rs, r => !Neutral(r)), j) == Combine(rs, j)
  {
    KeepSkips(rs, IsBlock);
    KeepSkips(rs, Noted);
    KeepSkips(rs, Active);
  }

  // ---- the lenient merge

  lemma {:induction false} LenientAgrees(st: St, es: seq<Elem>)
    requires st.ok
    ensures Fold(st, es, true).ok
  {
    if es != [] {
      LenientAgrees(st, es[..|es| - 1]);
    }
  }

  lemma {:induction false} LenientCollects(rs: seq<Res>)
    requires forall r :: r in rs ==> r.code == Some(0) && r.out.Object?
    ensures Collect(rs, true).Some? && Collect(rs, true).value.ok
  {
    if rs != [] {
      var n := |rs| - 1;
      assert rs[n] in rs && forall r :: r in rs[..n] ==> r in rs;
      LenientCollects(rs[..n]);
      assert Elems(rs[n]).Some?;
      LenientAgrees(Collect(rs[..n], true).value, Elems(rs[n]).value);
    }
  }

  /** A field that the merge neither joins nor decides, at the top or nested. */
  predicate PlainField(e: Elem) {
    || (e.TopField? && !Inherited(e.k) && e.k != HookSpecificOutput && e.k != SystemMessage)
    || (e.HsoField? && !Inherited(e.k) && e.k != AdditionalContext && e.k != PermissionDecision && e.k != PermissionDecisionReason)
  }

  /** Both set the same field of the same table. */
  predicate SameField(e: Elem, f: Elem) {
    (e.TopField? && f.TopField? && e.k == f.k) || (e.HsoField? && f.HsoField? && e.k == f.k)
  }

  /** The table the field belongs to. */
  function TableOf(acc: Acc, e: Elem): map<Name, Json> {
    if e.TopField? then acc.top else acc.hso
  }

  /** Of several answers that set a plain field, nested or not, differently the lenient merge keeps the first. */
  lemma {:induction false} LenientKeepsFirst(st: St, es: seq<Elem>, i: nat)
    requires i < |es| && PlainField(es[i]) && es[i].k !in TableOf(st.acc, es[i])
    requires forall n :: 0 <= n < i ==> !SameField(es[n], es[i])
    ensures var m := TableOf(Fold(st, es, true).acc, es[i]); es[i].k in m && m[es[i].k] == es[i].v
  {
    var n := |es| - 1;
    if i < n {
      LenientKeepsFirst(st, es[..n], i);
    } else {
      FieldStaysOut(st, es[..n], es[i]);
    }
  }

  lemma {:induction false} FieldStaysOut(st: St, es: seq<Elem>, e: Elem)
    requires PlainField(e) && e.k !in TableOf(st.acc, e)
    requires forall n :: 0 <= n < |es| ==> !SameField(es[n], e)
    ensures e.k !in TableOf(Fold(st, es, true).acc, e)
  {
    if es != [] {
      FieldStaysOut(st, es[..|es| - 1], e);
    }
  }

  /** What the sequential delivery merges: the objects printed by the hooks that exited 0. */
  predicate SaidObject(r: Res) {
    r.code == Some(0) && r.out.Object?
  }

  /** The lenient merge of the sequential delivery never conflicts. */
  lemma SequentialNeverConflicts(rs: seq<Res>, j: Joiners)
    ensures Merge(Keep(rs, SaidObject), j, true).Merged?
  {
    KeepOnly(rs, SaidObject);
    LenientCollects(Keep(rs, SaidObject));
  }
}
