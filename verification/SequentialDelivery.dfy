/** What the sequential delivery prints: objects merged leniently, plain texts beside them or, where plain text is context, among them. */
module SequentialDelivery {
  import opened Prelude
  import opened HookMerge
  import opened HookCombine
  import opened HookDelivery
  import opened HookSequential

  /** The hook exited 0 and printed something. */
  predicate Printed(r: Res) {
    r.code == Some(0) && !(r.out.Text? && r.out.s == "")
  }

  predicate PrintedText(r: Res) {
    r.code == Some(0) && r.out.Text? && r.out.s != ""
  }

  predicate PrintedObject(r: Res) {
    r.code == Some(0) && r.out.Object?
  }

  /** The stderr of every hook that finished. */
  function FinishedErrs(rs: seq<Res>): string {
    if rs == [] then "" else
      var last := rs[|rs| - 1];
      FinishedErrs(rs[..|rs| - 1]) + (if last.code.None? then "" else last.err)
  }

  lemma KeepMore(kept: seq<Res>, r: Res, q: Res -> bool)
    ensures Keep(kept + [r], q) == Keep(kept, q) + if q(r) then [r] else []
  {
    assert (kept + [r])[..|kept|] == kept;
  }

  lemma {:induction false} KeepTwice(rs: seq<Res>, p: Res -> bool, q: Res -> bool, both: Res -> bool)
    requires forall r :: r in rs ==> (both(r) <==> p(r) && q(r))
    ensures Keep(Keep(rs, p), q) == Keep(rs, both)
  {
    if rs != [] {
      var n := |rs| - 1;
      var kept := Keep(rs[..n], p);
      assert rs[n] in rs && forall r :: r in rs[..n] ==> r in rs;
      KeepTwice(rs[..n], p, q, both);
      if p(rs[n]) {
        assert Keep(rs, p) == kept + [rs[n]];
        KeepMore(kept, rs[n], q);
      } else {
        assert Keep(rs, p) == kept;
      }
    }
  }

  lemma {:induction false} ErrsOfFinished(rs: seq<Res>, p: Res -> bool)
    requires forall r: Res :: p(r) <==> r.code.Some?
    ensures Errs(Keep(rs, p)) == FinishedErrs(rs)
  {
    if rs != [] {
      var n := |rs| - 1;
      ErrsOfFinished(rs[..n], p);
      var kept := Keep(rs[..n], p);
      assert (kept + [rs[n]])[..|kept|] == kept;
      assert rs[n].code.None? ==> Keep(rs, p) == kept;
    }
  }

  /** The answer made of these objects: the one tidied, or all merged leniently, the first value of a field standing. */
  ghost predicate MadeOf(o: Outcome, os: seq<Res>, j: Joiners, err: string) {
    if |os| == 1 then o == Passed(Res(Some(0), TidyOut(os[0].out), err))
    else match Merge(os, j, true)
      case Conflict => o == Clash
      case Merged(top, hso, _) => o.Joined? && o.top == top && o.err == err && TidiedTable(hso, o.hso)
  }

  lemma ListMade(os: seq<Res>, j: Joiners, err: string, o: Outcome)
    requires os != []
    requires o == if |os| == 1 then Passed(Res(Some(0), TidyOut(os[0].out), err))
                  else match Tidied(Merge(os, j, true))
                    case Joined(top, hso, _) => Joined(top, hso, err)
                    case other => other
    ensures MadeOf(o, os, j, err)
  {
    if |os| > 1 {
      hide Merge, TidyHso, TidiedTable;
      match Merge(os, j, true)
      case Conflict =>
      case Merged(_, None, _) => TableOrNot(None);
      case Merged(_, Some(h), _) => TableOrNot(Some(h));
    }
  }

  /** Where no hook printed an object, the plain texts are the output, each as whole lines in hook order. */
  lemma TextsAlone(rs: seq<Res>, j: Joiners, event: string, contexts: bool)
    requires forall r :: r in rs ==> !PrintedObject(r)
    ensures Sequential(rs, j, event, contexts) == Passed(Res(Some(0), Text(PlainLines(Keep(rs, PrintedText))), FinishedErrs(rs)))
  {
    KeepTwice(rs, Said, IsPlain, PrintedText);
    KeepTwice(rs, Said, IsObject, PrintedObject);
    KeepNone(rs, PrintedObject);
    ErrsOfFinished(rs, (r: Res) => r.code.Some?);
    KeepOnly(rs, Said);
  }

  /** Where plain text is no context it goes to stderr, after what the hooks wrote there, and the objects are the answer. */
  lemma TextsBeside(rs: seq<Res>, j: Joiners, event: string)
    requires exists r :: r in rs && PrintedObject(r)
    ensures Keep(rs, PrintedObject) != []
    ensures MadeOf(Sequential(rs, j, event, false), Keep(rs, PrintedObject), j, FinishedErrs(rs) + PlainLines(Keep(rs, PrintedText)))
  {
    var r :| r in rs && PrintedObject(r);
    KeepOnly(rs, PrintedObject);
    KeepTwice(rs, Said, IsPlain, PrintedText);
    KeepTwice(rs, Said, IsObject, PrintedObject);
    ErrsOfFinished(rs, (r: Res) => r.code.Some?);
    hide MadeOf, PlainLines, Keep, FinishedErrs, Errs;
    ListMade(Keep(rs, PrintedObject), j, FinishedErrs(rs) + PlainLines(Keep(rs, PrintedText)), Sequential(rs, j, event, false));
  }

  /** The objects, each plain text among them as the context of an object of its own, without its last newlines. */
  ghost predicate AmongObjects(os: seq<Res>, printed: seq<Res>, event: string) {
    && |os| == |printed|
    && forall i :: 0 <= i < |os| ==>
         && os[i].code == printed[i].code && os[i].err == printed[i].err
         && match printed[i].out
            case Object(_) => os[i].out == printed[i].out
            case Text(s) => ContextOnly(os[i].out, event, s)
  }

  ghost predicate ContextOnly(out: Stdout, event: string, s: string) {
    exists n :: EndsInNewlines(s, n) && out == Object([(HookSpecificOutput,
      Obj([(HookEventName, Str(event)), (AdditionalContext, Str(s[..n]))]))])
  }

  /** From `n` on there are only newlines, and none stands before `n`. */
  predicate EndsInNewlines(s: string, n: int) {
    0 <= n <= |s| && (forall i :: n <= i < |s| ==> s[i] == '\n') && (n > 0 ==> s[n - 1] != '\n')
  }

  lemma {:induction false} StripEnds(s: string) returns (n: nat)
    ensures EndsInNewlines(s, n) && Strip(s) == s[..n]
  {
    if s != "" && s[|s| - 1] == '\n' {
      n := StripEnds(s[..|s| - 1]);
      assert s[..|s| - 1][..n] == s[..n];
    } else {
      n := |s|;
    }
  }

  lemma {:induction false} ContextsAmong(rs: seq<Res>, event: string)
    ensures AmongObjects(AsContexts(rs, event), rs, event)
    ensures forall r :: r in AsContexts(rs, event) ==> r.out.Object?
  {
    if rs != [] {
      var n := |rs| - 1;
      ContextsAmong(rs[..n], event);
      match rs[n].out
      case Object(_) =>
      case Text(s) => var _ := StripEnds(s);
    }
  }

  /**
   Where plain text is context and a hook printed an object, each plain text is one more object, in its place, and nothing of it goes to
   stderr.
   */
  lemma TextsAmong(rs: seq<Res>, j: Joiners, event: string) returns (os: seq<Res>)
    requires exists r :: r in rs && PrintedObject(r)
    ensures os != [] && AmongObjects(os, Keep(rs, Printed), event)
    ensures MadeOf(Sequential(rs, j, event, true), os, j, FinishedErrs(rs))
  {
    SaidIsPrinted(rs);
    var said := Keep(rs, Said);
    os := AsContexts(said, event);
    ContextsAmong(said, event);
    ObjectsOnly(os);
    ErrsOfFinished(rs, (r: Res) => r.code.Some?);
    hide MadeOf, Keep, FinishedErrs, Errs, AsContexts, AmongObjects, Merge, TidyOut, Tidied, PlainLines;
    ListMade(os, j, FinishedErrs(rs), Sequential(rs, j, event, true));
  }

  lemma SaidIsPrinted(rs: seq<Res>)
    requires exists r :: r in rs && PrintedObject(r)
    ensures Keep(rs, Said) == Keep(rs, Printed) && exists r :: r in Keep(rs, Said) && IsObject(r)
  {
    var r :| r in rs && PrintedObject(r);
    KeepAlike(rs, Said, Printed);
    KeepOnly(rs, Said);
    assert r in Keep(rs, Said) && IsObject(r);
  }

  lemma ObjectsOnly(os: seq<Res>)
    requires forall r :: r in os ==> r.out.Object?
    ensures Keep(os, IsObject) == os
    ensures forall err: string :: err + PlainLines(Keep(os, IsPlain)) == err
  {
    KeepAll(os, IsObject);
    KeepNone(os, IsPlain);
    forall err: string ensures err + PlainLines(Keep(os, IsPlain)) == err {
      assert PlainLines([]) == "";
      assert err + "" == err;
    }
  }

  lemma {:induction false} KeepAll(rs: seq<Res>, p: Res -> bool)
    requires forall r :: r in rs ==> p(r)
    ensures Keep(rs, p) == rs
  {
    if rs != [] {
      var n := |rs| - 1;
      KeepAll(rs[..n], p);
    }
  }
}
