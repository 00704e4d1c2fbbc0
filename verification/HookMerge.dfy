/**
 Merging the answers of several hooks into one: the field-by-field merge with its conflicts, joined contexts and messages and the
 decision by precedence, and why merging in groups gives what merging all at once gives.
 */
module HookMerge {
  import opened Prelude

  /**
   A field name: the ones the merge knows, the ones every object inherits (the prototype itself among them), and all others.
   */
  datatype Name =
    | HookSpecificOutput | SystemMessage | TopDecision | TopReason
    | AdditionalContext | PermissionDecision | PermissionDecisionReason | HookEventName
    | Prototype | InheritedName(i: nat)
    | Other(s: string)

  /** A JSON value. Fields keep their order, as two values are compared by their text. */
  datatype Json =
    | Null
    | Bool(b: bool)
    | Num(text: string)
    | Str(s: string)
    | Arr(items: seq<Json>)
    | Obj(fields: seq<(Name, Json)>)

  /** What a hook printed: text that is not one JSON object, or the object. */
  datatype Stdout = Text(s: string) | Object(fields: seq<(Name, Json)>)

  /** A finished hook; no code when it was killed at its timeout. */
  datatype Res = Res(code: Option<int>, out: Stdout, err: string)

  datatype Joiners = Joiners(context: string, message: string, reason: string)

  predicate Blank(s: string) {
    forall i :: 0 <= i < |s| ==> s[i] in {' ', '\t', '\r', '\n'}
  }

  predicate UniqueKeys(fields: seq<(Name, Json)>) {
    forall i, j :: 0 <= i < j < |fields| ==> fields[i].0 != fields[j].0
  }

  function Lookup(fields: seq<(Name, Json)>, k: Name): (r: Option<Json>)
    ensures r.Some? <==> exists i :: 0 <= i < |fields| && fields[i].0 == k
    ensures r.Some? ==> exists i :: 0 <= i < |fields| && fields[i] == (k, r.value)
  {
    if fields == [] then None
    else if fields[0].0 == k then Some(fields[0].1)
    else
      var r := Lookup(fields[1..], k);
      assert forall i :: 0 < i < |fields| ==> fields[i] == fields[1..][i - 1];
      r
  }

  /** The position in deny, defer, ask, allow; anything else comes last. */
  function Rank(value: string): nat {
    if value == "deny" then 0 else if value == "defer" then 1 else if value == "ask" then 2 else if value == "allow" then 3 else 4
  }

  datatype Decision = Decision(value: string, reason: Option<Json>)

  /** One contribution of a hook's answer, as the merge meets it. */
  datatype Elem =
    | Stderr(s: string)
    | TopField(k: Name, v: Json)
    | OpenHso
    | Message(s: string)
    | Context(s: string)
    | Decide(d: Decision)
    | GiveReason
    | HsoField(k: Name, v: Json)

  function HsoElem(h: seq<(Name, Json)>, k: Name, v: Json): Elem {
    if k == AdditionalContext && v.Str? then Context(v.s)
    else if k == PermissionDecision && v.Str? then Decide(Decision(v.s, Lookup(h, PermissionDecisionReason)))
    else if k == PermissionDecisionReason then GiveReason
    else HsoField(k, v)
  }

  /** The contributions of the first fields of a `hookSpecificOutput`. */
  function HsoElems(h: seq<(Name, Json)>, fields: seq<(Name, Json)>): seq<Elem> {
    if fields == [] then [] else
      var n := |fields| - 1;
      HsoElems(h, fields[..n]) + [HsoElem(h, fields[n].0, fields[n].1)]
  }

  function FieldElems(k: Name, v: Json): seq<Elem> {
    if k == HookSpecificOutput && v.Obj? then [OpenHso] + HsoElems(v.fields, v.fields)
    else if k == SystemMessage && v.Str? then [Message(v.s)]
    else [TopField(k, v)]
  }

  function TopElems(fields: seq<(Name, Json)>): seq<Elem> {
    if fields == [] then [] else
      var n := |fields| - 1;
      TopElems(fields[..n]) + FieldElems(fields[n].0, fields[n].1)
  }

  /** What a result contributes; none when it cannot be merged at all. */
  function Elems(r: Res): Option<seq<Elem>> {
    if r.code != Some(0) then None
    else match r.out
      case Text(s) => if Blank(s) then Some([Stderr(r.err)]) else None
      case Object(fields) => Some([Stderr(r.err)] + TopElems(fields))
  }

  // ---- the merge

  /** The names every object answers to without having them; reading one gives no comparable value, but for the prototype itself. */
  predicate Inherited(k: Name) {
    k.Prototype? || k.InheritedName?
  }

  /** Set a field, or say whether the value agrees with the one already there. */
  function PutIn(o: map<Name, Json>, k: Name, v: Json, lenient: bool): (map<Name, Json>, bool) {
    if Inherited(k) then (o, lenient || (k.Prototype? && v == Obj([])))
    else if k in o then (o, lenient || o[k] == v)
    else (o[k := v], true)
  }

  datatype Acc = Acc(
    top: map<Name, Json>,
    hso: map<Name, Json>,
    contexts: seq<string>,
    messages: seq<string>,
    decision: Option<Decision>,
    err: string)

  const START: Acc := Acc(map[], map[], [], [], None, "")

  function Better(held: Option<Decision>, d: Decision): Decision {
    if held.None? || Rank(d.value) < Rank(held.value.value) then d else held.value
  }

  /** The merge under way: what was collected, and whether everything agreed so far. */
  datatype St = St(acc: Acc, ok: bool)

  const START_ST: St := St(START, true)

  function Absorb(st: St, e: Elem, lenient: bool): St {
    var acc := st.acc;
    match e
    case Stderr(s) => St(acc.(err := acc.err + s), st.ok)
    case TopField(k, v) => var (top, ok) := PutIn(acc.top, k, v, lenient); St(acc.(top := top), st.ok && ok)
    case OpenHso => var (top, ok) := PutIn(acc.top, HookSpecificOutput, Obj([]), lenient); St(acc.(top := top), st.ok && ok)
    case Message(s) =>
      var (top, ok) := PutIn(acc.top, SystemMessage, Str(""), lenient);
      St(acc.(top := top, messages := acc.messages + [s]), st.ok && ok)
    case Context(s) =>
      var (hso, ok) := PutIn(acc.hso, AdditionalContext, Str(""), lenient);
      St(acc.(hso := hso, contexts := acc.contexts + [s]), st.ok && ok)
    case Decide(d) =>
      var (hso, ok) := PutIn(acc.hso, PermissionDecision, Str(""), lenient);
      St(acc.(hso := hso, decision := Some(Better(acc.decision, d))), st.ok && ok)
    case GiveReason => var (hso, ok) := PutIn(acc.hso, PermissionDecisionReason, Str(""), lenient); St(acc.(hso := hso), st.ok && ok)
    case HsoField(k, v) => var (hso, ok) := PutIn(acc.hso, k, v, lenient); St(acc.(hso := hso), st.ok && ok)
  }

  function Fold(st: St, es: seq<Elem>, lenient: bool): St {
    if es == [] then st else
      var n := |es| - 1;
      Absorb(Fold(st, es[..n], lenient), es[n], lenient)
  }

  /** The merge of the results in hook order; none when one of them cannot be merged. */
  function Collect(rs: seq<Res>, lenient: bool): Option<St> {
    if rs == [] then Some(START_ST) else
      var n := |rs| - 1;
      var before := Collect(rs[..n], lenient);
      var last := Elems(rs[n]);
      if before.Some? && last.Some? then Some(Fold(before.value, last.value, lenient)) else None
  }

  /** The one answer: its top-level fields, its `hookSpecificOutput` if it has one, and the joined stderr. */
  datatype Answer = Conflict | Merged(top: map<Name, Json>, hso: Option<map<Name, Json>>, err: string)

  function Join(parts: seq<string>, sep: string): string {
    if parts == [] then "" else
      var n := |parts| - 1;
      if n == 0 then parts[0] else Join(parts[..n], sep) + sep + parts[n]
  }

  function NonEmpty(parts: seq<string>): seq<string> {
    if parts == [] then [] else
      var n := |parts| - 1;
      NonEmpty(parts[..n]) + (if parts[n] == "" then [] else [parts[n]])
  }

  function RenderHso(acc: Acc, j: Joiners): map<Name, Json> {
    map k | k in acc.hso
          && (k == PermissionDecision ==> acc.decision.Some?)
          && (k == PermissionDecisionReason ==> acc.decision.Some? && acc.decision.value.reason.Some?) ::
      if k == AdditionalContext then Str(Join(NonEmpty(acc.contexts), j.context))
      else if k == PermissionDecision && acc.decision.Some? then Str(acc.decision.value.value)
      else if k == PermissionDecisionReason && acc.decision.Some? && acc.decision.value.reason.Some? then acc.decision.value.reason.value
      else acc.hso[k]
  }

  function Render(acc: Acc, j: Joiners): Answer {
    Merged(
      map k | k in acc.top && k != HookSpecificOutput :: if k == SystemMessage then Str(Join(acc.messages, j.message)) else acc.top[k],
      if HookSpecificOutput in acc.top then Some(RenderHso(acc, j)) else None,
      acc.err)
  }

  /** The merge of some answers, strict or lenient. */
  function Merge(rs: seq<Res>, j: Joiners, lenient: bool): Answer {
    var st := Collect(rs, lenient);
    if st.Some? && st.value.ok then Render(st.value.acc, j) else Conflict
  }

  // ---- the merge as the original runs it

  /** The loops over results, fields and nested fields, updating the collected parts in place. */
  class Merger {
    const lenient: bool
    var acc: Acc
    var agrees: bool

    constructor (lenient: bool)
      ensures this.lenient == lenient && Now() == START_ST
    {
      this.lenient, acc, agrees := lenient, START, true;
    }

    function Now(): St
      reads this
    {
      St(acc, agrees)
    }

    method Put(e: Elem)
      modifies this`acc, this`agrees
      ensures Now() == Absorb(old(Now()), e, lenient)
    {
      var st := Absorb(Now(), e, lenient);
      acc, agrees := st.acc, st.ok;
    }

    method PutHso(h: seq<(Name, Json)>)
      modifies this`acc, this`agrees
      ensures Now() == Fold(old(Now()), HsoElems(h, h), lenient)
    {
      for i := 0 to |h|
        invariant Now() == Fold(old(Now()), HsoElems(h, h[..i]), lenient)
      {
        Put(HsoElem(h, h[i].0, h[i].1));
        assert h[..i + 1][..i] == h[..i];
        FoldSnoc(old(Now()), HsoElems(h, h[..i]), HsoElem(h, h[i].0, h[i].1), lenient);
      }
      assert h[..|h|] == h;
    }

    method PutField(k: Name, v: Json)
      modifies this`acc, this`agrees
      ensures Now() == Fold(old(Now()), FieldElems(k, v), lenient)
    {
      if k == HookSpecificOutput && v.Obj? {
        FoldAppend(Now(), [OpenHso], HsoElems(v.fields, v.fields), lenient);
        FoldOne(Now(), OpenHso, lenient);
        Put(OpenHso);
        PutHso(v.fields);
      } else if k == SystemMessage && v.Str? {
        FoldOne(Now(), Message(v.s), lenient);
        Put(Message(v.s));
      } else {
        FoldOne(Now(), TopField(k, v), lenient);
        Put(TopField(k, v));
      }
    }

    /** One answer's fields; stops as soon as one of them conflicts. */
    method PutFields(fields: seq<(Name, Json)>)
      modifies this`acc, this`agrees
      ensures agrees == Fold(old(Now()), TopElems(fields), lenient).ok
      ensures agrees ==> Now() == Fold(old(Now()), TopElems(fields), lenient)
    {
      for i := 0 to |fields|
        invariant Now() == Fold(old(Now()), TopElems(fields[..i]), lenient)
      {
        FoldAppend(old(Now()), TopElems(fields[..i]), FieldElems(fields[i].0, fields[i].1), lenient);
        PutField(fields[i].0, fields[i].1);
        assert fields[..i + 1][..i] == fields[..i];
        if !agrees {
          FieldConflictStays(old(Now()), fields, i + 1, lenient);
          return;
        }
      }
      assert fields[..|fields|] == fields;
    }

    /** One result: false when it makes the merge a conflict. */
    method PutResult(r: Res) returns (ok: bool)
      modifies this`acc, this`agrees
      ensures ok <==> Elems(r).Some? && Fold(old(Now()), Elems(r).value, lenient).ok
      ensures ok ==> Now() == Fold(old(Now()), Elems(r).value, lenient)
    {
      if r.code != Some(0) {
        return false;
      }
      FoldOne(Now(), Stderr(r.err), lenient);
      match r.out
      case Text(s) =>
        Put(Stderr(r.err));
        ok := Blank(s) && agrees;
      case Object(fields) =>
        FoldAppend(Now(), [Stderr(r.err)], TopElems(fields), lenient);
        Put(Stderr(r.err));
        PutFields(fields);
        ok := agrees;
    }

    method Run(rs: seq<Res>, j: Joiners) returns (answer: Answer)
      requires Now() == START_ST
      modifies this`acc, this`agrees
      ensures answer == Merge(rs, j, lenient)
    {
      for i := 0 to |rs|
        invariant Collect(rs[..i], lenient) == Some(Now()) && agrees
      {
        assert rs[..i + 1][..i] == rs[..i];
        var ok := PutResult(rs[i]);
        if !ok {
          ConflictStays(rs, lenient, i + 1);
          return Conflict;
        }
      }
      assert rs[..|rs|] == rs;
      answer := Render(acc, j);
    }
  }

  lemma FoldOne(st: St, e: Elem, lenient: bool)
    ensures Fold(st, [e], lenient) == Absorb(st, e, lenient)
  {
    assert [e][..0] == [];
  }

  lemma FoldSnoc(st: St, es: seq<Elem>, e: Elem, lenient: bool)
    ensures Fold(st, es + [e], lenient) == Absorb(Fold(st, es, lenient), e, lenient)
  {
    assert (es + [e])[..|es|] == es;
  }

  lemma {:induction false} FoldAppend(st: St, xs: seq<Elem>, ys: seq<Elem>, lenient: bool)
    ensures Fold(st, xs + ys, lenient) == Fold(Fold(st, xs, lenient), ys, lenient)
  {
    if ys == [] {
      assert xs + ys == xs;
    } else {
      var n := |ys| - 1;
      FoldAppend(st, xs, ys[..n], lenient);
      assert (xs + ys)[..|xs + ys| - 1] == xs + ys[..n];
    }
  }

  /** Disagreement is never forgotten. */
  lemma {:induction false} FalseStays(st: St, es: seq<Elem>, lenient: bool)
    requires !st.ok
    ensures !Fold(st, es, lenient).ok
  {
    if es != [] {
      FalseStays(st, es[..|es| - 1], lenient);
    }
  }

  lemma TopSnoc(st: St, fields: seq<(Name, Json)>, lenient: bool)
    requires fields != []
    ensures var n := |fields| - 1;
      Fold(st, TopElems(fields), lenient) ==
        Fold(Fold(st, TopElems(fields[..n]), lenient), FieldElems(fields[n].0, fields[n].1), lenient)
  {
    var n := |fields| - 1;
    FoldAppend(st, TopElems(fields[..n]), FieldElems(fields[n].0, fields[n].1), lenient);
  }

  lemma {:induction false} FieldConflictStays(st: St, fields: seq<(Name, Json)>, i: nat, lenient: bool)
    requires i <= |fields| && !Fold(st, TopElems(fields[..i]), lenient).ok
    ensures !Fold(st, TopElems(fields), lenient).ok
    decreases |fields| - i
  {
    if i == |fields| {
      assert fields[..i] == fields;
    } else {
      var more := fields[..i + 1];
      assert more[..i] == fields[..i];
      TopSnoc(st, more, lenient);
      FalseStays(Fold(st, TopElems(fields[..i]), lenient), FieldElems(fields[i].0, fields[i].1), lenient);
      FieldConflictStays(st, fields, i + 1, lenient);
    }
  }

  /** A merge that conflicts at some result conflicts. */
  lemma {:induction false} ConflictStays(rs: seq<Res>, lenient: bool, i: nat)
    requires i <= |rs| && (Collect(rs[..i], lenient).None? || !Collect(rs[..i], lenient).value.ok)
    ensures Collect(rs, lenient).None? || !Collect(rs, lenient).value.ok
    decreases |rs| - i
  {
    if i == |rs| {
      assert rs[..i] == rs;
    } else {
      var more := rs[..i + 1];
      assert more[..i] == rs[..i];
      if Collect(rs[..i], lenient).Some? && Elems(rs[i]).Some? {
        FalseStays(Collect(rs[..i], lenient).value, Elems(rs[i]).value, lenient);
      }
      ConflictStays(rs, lenient, i + 1);
    }
  }
}
