/** The report over the action log: per feature, the actions by outcome, the mistakes and the follow-ups. */
module ActionReport {
  import opened Prelude

  datatype Outcome = Ok | Refused | Failed

  datatype Verdict = Clean | Mistaken | NoVerdict

  datatype Body =
    | Action(action: string, outcome: Outcome, latency: Option<nat>)
    | Mistake(action: string, target: string, kind: string)
    | Followup(verdict: Verdict)
    | Other

  /** A line of the log that could be read; an outcome that is neither ok nor refused counts as failed. */
  datatype Line = Line(ts: nat, feature: string, body: Body)

  datatype Counts = Counts(ok: nat, refused: nat, failed: nat)

  const NO_COUNTS := Counts(0, 0, 0)

  function CountOf(o: Outcome): Counts {
    Counts(if o.Ok? then 1 else 0, if o.Refused? then 1 else 0, if o.Failed? then 1 else 0)
  }

  function PlusCounts(a: Counts, b: Counts): Counts {
    Counts(a.ok + b.ok, a.refused + b.refused, a.failed + b.failed)
  }

  datatype Feature = Feature(
    counts: Counts,
    byAction: map<string, Counts>,
    mistakes: set<(string, string)>,
    byKind: map<string, nat>,
    verified: nat,
    mistaken: nat,
    latencySum: nat,
    latencyN: nat,
    latencyMax: nat)

  const BLANK := Feature(NO_COUNTS, map[], {}, map[], 0, 0, 0, 0, 0)

  function CountsAt(m: map<string, Counts>, k: string): Counts {
    if k in m then m[k] else NO_COUNTS
  }

  function NumberAt(m: map<string, nat>, k: string): nat {
    if k in m then m[k] else 0
  }

  function Note(f: Feature, b: Body): Feature {
    match b
    case Action(action, outcome, latency) =>
      var g := f.(counts := PlusCounts(f.counts, CountOf(outcome)),
                  byAction := f.byAction[action := PlusCounts(CountsAt(f.byAction, action), CountOf(outcome))]);
      if latency.None? then g
      else g.(latencySum := f.latencySum + latency.value, latencyN := f.latencyN + 1, latencyMax := Max(f.latencyMax, latency.value))
    case Mistake(action, target, kind) =>
      f.(mistakes := f.mistakes + {(action, target)}, byKind := f.byKind[kind := NumberAt(f.byKind, kind) + 1])
    case Followup(verdict) =>
      f.(verified := f.verified + if verdict.NoVerdict? then 0 else 1, mistaken := f.mistaken + if verdict.Mistaken? then 1 else 0)
    case Other => f
  }

  /** Is a line in the window, and of a feature that is asked for? */
  predicate Counted(l: Line, only: Option<string>, since: nat) {
    l.ts >= since && l.feature != "" && (only.None? || only.value == l.feature)
  }

  function FeatureAt(m: map<string, Feature>, name: string): Feature {
    if name in m then m[name] else BLANK
  }

  /** The lines added to the features collected so far. */
  function Collect(m: map<string, Feature>, lines: seq<Line>, only: Option<string>, since: nat): map<string, Feature> {
    if lines == [] then m else
      var before := Collect(m, lines[..|lines| - 1], only, since);
      var l := lines[|lines| - 1];
      if Counted(l, only, since) then before[l.feature := Note(FeatureAt(before, l.feature), l.body)] else before
  }

  /** The shipped features, and every other one the log names. */
  function Report(shipped: set<string>, lines: seq<Line>, only: Option<string>, since: nat): map<string, Feature> {
    Collect(map name | name in shipped :: BLANK, lines, only, since)
  }

  method RunReport(shipped: set<string>, lines: seq<Line>, only: Option<string>, since: nat) returns (m: map<string, Feature>)
    ensures m == Report(shipped, lines, only, since)
  {
    m := map name | name in shipped :: BLANK;
    for i := 0 to |lines|
      invariant m == Report(shipped, lines[..i], only, since)
    {
      var l := lines[i];
      assert lines[..i + 1][..i] == lines[..i];
      if l.ts < since || l.feature == "" || (only.Some? && only.value != l.feature) {
        continue;
      }
      var f := if l.feature in m then m[l.feature] else BLANK;
      match l.body {
        case Action(action, outcome, latency) =>
          f := f.(counts := PlusCounts(f.counts, CountOf(outcome)),
                  byAction := f.byAction[action := PlusCounts(CountsAt(f.byAction, action), CountOf(outcome))]);
          if latency.Some? {
            f := f.(latencySum := f.latencySum + latency.value, latencyN := f.latencyN + 1, latencyMax := Max(f.latencyMax, latency.value));
          }
        case Mistake(action, target, kind) =>
          f := f.(mistakes := f.mistakes + {(action, target)}, byKind := f.byKind[kind := NumberAt(f.byKind, kind) + 1]);
        case Followup(verdict) =>
          match verdict {
            case Clean => f := f.(verified := f.verified + 1);
            case Mistaken => f := f.(verified := f.verified + 1, mistaken := f.mistaken + 1);
            case NoVerdict =>
          }
        case Other =>
      }
      m := m[l.feature := f];
    }
    assert lines[..|lines|] == lines;
  }

  // ---- logs put end to end

  function PlusActions(a: map<string, Counts>, b: map<string, Counts>): map<string, Counts> {
    map k | k in a.Keys + b.Keys :: PlusCounts(CountsAt(a, k), CountsAt(b, k))
  }

  function PlusKinds(a: map<string, nat>, b: map<string, nat>): map<string, nat> {
    map k | k in a.Keys + b.Keys :: NumberAt(a, k) + NumberAt(b, k)
  }

  function PlusFeatures(f: Feature, g: Feature): Feature {
    Feature(PlusCounts(f.counts, g.counts),
            PlusActions(f.byAction, g.byAction),
            f.mistakes + g.mistakes,
            PlusKinds(f.byKind, g.byKind),
            f.verified + g.verified, f.mistaken + g.mistaken,
            f.latencySum + g.latencySum, f.latencyN + g.latencyN, Max(f.latencyMax, g.latencyMax))
  }

  lemma PlusCommutes(f: Feature, g: Feature)
    ensures PlusFeatures(f, g) == PlusFeatures(g, f)
  {
    assert PlusActions(f.byAction, g.byAction) == PlusActions(g.byAction, f.byAction);
    assert PlusKinds(f.byKind, g.byKind) == PlusKinds(g.byKind, f.byKind);
  }

  lemma PlusBlank(f: Feature)
    ensures PlusFeatures(f, BLANK) == f
  {
    assert PlusActions(f.byAction, map[]) == f.byAction && PlusKinds(f.byKind, map[]) == f.byKind;
  }

  lemma NoteAction(a: map<string, Counts>, b: map<string, Counts>, k: string, c: Counts)
    ensures PlusActions(a, b)[k := PlusCounts(CountsAt(PlusActions(a, b), k), c)] == PlusActions(a, b[k := PlusCounts(CountsAt(b, k), c)])
  {
    var (l, r) := (PlusActions(a, b)[k := PlusCounts(CountsAt(PlusActions(a, b), k), c)], PlusActions(a, b[k := PlusCounts(CountsAt(b, k), c)]));
    assert l.Keys == r.Keys;
    assert l[k] == r[k];
    forall q | q in l && q != k ensures l[q] == r[q] {
    }
  }

  lemma NoteKind(a: map<string, nat>, b: map<string, nat>, k: string)
    ensures PlusKinds(a, b)[k := NumberAt(PlusKinds(a, b), k) + 1] == PlusKinds(a, b[k := NumberAt(b, k) + 1])
  {
  }

  /** Noting a line in a sum is noting it in one part. */
  lemma NoteOfSum(f: Feature, g: Feature, b: Body)
    ensures Note(PlusFeatures(f, g), b) == PlusFeatures(f, Note(g, b))
  {
    hide PlusActions, PlusKinds;
    match b
    case Action(action, outcome, _) => NoteAction(f.byAction, g.byAction, action, CountOf(outcome));
    case Mistake(action, target, kind) =>
      NoteKind(f.byKind, g.byKind, kind);
      assert (f.mistakes + g.mistakes) + {(action, target)} == f.mistakes + (g.mistakes + {(action, target)});
    case _ =>
  }

  /** What some lines say of one feature. */
  function OfFeature(lines: seq<Line>, name: string, only: Option<string>, since: nat): Feature {
    FeatureAt(Report({}, lines, only, since), name)
  }

  lemma {:induction false} CollectAdds(m: map<string, Feature>, lines: seq<Line>, only: Option<string>, since: nat, name: string)
    ensures FeatureAt(Collect(m, lines, only, since), name) == PlusFeatures(FeatureAt(m, name), OfFeature(lines, name, only, since))
    ensures name in Collect(m, lines, only, since) <==> name in m || name in Report({}, lines, only, since)
  {
    hide Note, PlusFeatures;
    if lines == [] {
      PlusBlank(FeatureAt(m, name));
    } else {
      var n := |lines| - 1;
      CollectAdds(m, lines[..n], only, since, name);
      NoteOfSum(FeatureAt(m, name), OfFeature(lines[..n], name, only, since), lines[n].body);
    }
  }

  lemma {:induction false} CollectAppend(m: map<string, Feature>, a: seq<Line>, b: seq<Line>, only: Option<string>, since: nat)
    ensures Collect(m, a + b, only, since) == Collect(Collect(m, a, only, since), b, only, since)
  {
    if b == [] {
      assert a + b == a;
    } else {
      var n := |b| - 1;
      CollectAppend(m, a, b[..n], only, since);
      assert (a + b)[..|a| + n] == a + b[..n];
    }
  }

  /** The report of two logs end to end is, feature by feature, the sum of their reports, and so the order of the logs does not matter. */
  lemma ReportAdds(shipped: set<string>, a: seq<Line>, b: seq<Line>, only: Option<string>, since: nat)
    ensures var (ra, rb) := (Report(shipped, a, only, since), Report(shipped, b, only, since));
      && Report(shipped, a + b, only, since).Keys == ra.Keys + rb.Keys
      && (forall name :: name in ra.Keys + rb.Keys ==>
            Report(shipped, a + b, only, since)[name] == PlusFeatures(FeatureAt(ra, name), FeatureAt(rb, name)))
    ensures Report(shipped, a + b, only, since) == Report(shipped, b + a, only, since)
  {
    SumOfReports(shipped, a, b, only, since);
    SumOfReports(shipped, b, a, only, since);
    hide PlusFeatures, Report;
    var (ab, ba) := (Report(shipped, a + b, only, since), Report(shipped, b + a, only, since));
    assert ab.Keys == ba.Keys;
    forall name | name in ab ensures ab[name] == ba[name] {
      PlusCommutes(FeatureAt(Report(shipped, a, only, since), name), FeatureAt(Report(shipped, b, only, since), name));
    }
  }

  lemma SumOfReports(shipped: set<string>, a: seq<Line>, b: seq<Line>, only: Option<string>, since: nat)
    ensures var (ra, rb) := (Report(shipped, a, only, since), Report(shipped, b, only, since));
      && Report(shipped, a + b, only, since).Keys == ra.Keys + rb.Keys
      && forall name :: name in ra.Keys + rb.Keys ==>
           Report(shipped, a + b, only, since)[name] == PlusFeatures(FeatureAt(ra, name), FeatureAt(rb, name))
  {
    hide PlusFeatures, Collect;
    var start := map name | name in shipped :: BLANK;
    var (ra, rb, all) := (Report(shipped, a, only, since), Report(shipped, b, only, since), Report(shipped, a + b, only, since));
    CollectAppend(start, a, b, only, since);
    forall name
      ensures FeatureAt(all, name) == PlusFeatures(FeatureAt(ra, name), FeatureAt(rb, name))
      ensures name in all <==> name in ra || name in rb {
      CollectAdds(ra, b, only, since, name);
      CollectAdds(start, b, only, since, name);
      CollectAdds(start, a, only, since, name);
      PlusCommutes(BLANK, OfFeature(b, name, only, since));
      PlusBlank(OfFeature(b, name, only, since));
    }
  }

  // ---- the counts against their parts

  ghost function Total(m: map<string, Counts>): Counts
    decreases |m|
  {
    if m == map[] then NO_COUNTS else
      var k :| k in m;
      PlusCounts(m[k], Total(m - {k}))
  }

  lemma PlusShuffle(a: Counts, b: Counts, c: Counts)
    ensures PlusCounts(a, PlusCounts(b, c)) == PlusCounts(b, PlusCounts(a, c))
  {
  }

  lemma {:induction false} TotalWithout(m: map<string, Counts>, k: string)
    requires k in m
    ensures Total(m) == PlusCounts(m[k], Total(m - {k}))
    decreases |m|
  {
    var q :| q in m && Total(m) == PlusCounts(m[q], Total(m - {q}));
    if q != k {
      TotalWithout(m - {q}, k);
      TotalWithout(m - {k}, q);
      var rest := (m - {q}) - {k};
      assert rest == (m - {k}) - {q};
      assert Total(m - {q}) == PlusCounts(m[k], Total(rest)) && Total(m - {k}) == PlusCounts(m[q], Total(rest));
      PlusShuffle(m[q], m[k], Total(rest));
      assert Total(m) == PlusCounts(m[k], Total(m - {k}));
    }
  }

  lemma TotalSet(m: map<string, Counts>, k: string, c: Counts)
    ensures Total(m[k := PlusCounts(CountsAt(m, k), c)]) == PlusCounts(Total(m), c)
  {
    var m' := m[k := PlusCounts(CountsAt(m, k), c)];
    TotalWithout(m', k);
    assert m' - {k} == m - {k};
    if k in m {
      TotalWithout(m, k);
    } else {
      assert m - {k} == m;
    }
  }

  /** In every report, the outcomes of a feature are the sums of its outcomes by action. */
  lemma {:induction false} CountsAddUp(shipped: set<string>, lines: seq<Line>, only: Option<string>, since: nat, name: string)
    requires name in Report(shipped, lines, only, since)
    ensures var f := Report(shipped, lines, only, since)[name]; f.counts == Total(f.byAction)
  {
    if lines != [] {
      var n := |lines| - 1;
      var l := lines[n];
      if name in Report(shipped, lines[..n], only, since) {
        CountsAddUp(shipped, lines[..n], only, since, name);
      }
      if Counted(l, only, since) && l.feature == name && l.body.Action? {
        TotalSet(FeatureAt(Report(shipped, lines[..n], only, since), name).byAction, l.body.action, CountOf(l.body.outcome));
      }
    }
  }

  // ---- the counters against the lines

  /** What a counter counts. */
  datatype Kind = Did(o: Outcome) | DidAs(action: string, o: Outcome) | Found(kind: string) | Verified | FoundLater

  predicate IsOf(b: Body, k: Kind) {
    match k
    case Did(o) => b.Action? && b.outcome == o
    case DidAs(a, o) => b.Action? && b.action == a && b.outcome == o
    case Found(kind) => b.Mistake? && b.kind == kind
    case Verified => b.Followup? && !b.verdict.NoVerdict?
    case FoundLater => b.Followup? && b.verdict.Mistaken?
  }

  function OfOutcome(c: Counts, o: Outcome): nat {
    match o case Ok => c.ok case Refused => c.refused case Failed => c.failed
  }

  /** A feature's counter of a kind. */
  function Counter(f: Feature, k: Kind): nat {
    match k
    case Did(o) => OfOutcome(f.counts, o)
    case DidAs(a, o) => OfOutcome(CountsAt(f.byAction, a), o)
    case Found(kind) => NumberAt(f.byKind, kind)
    case Verified => f.verified
    case FoundLater => f.mistaken
  }

  /** How many counted lines of a feature are of a kind. */
  function Count(lines: seq<Line>, name: string, only: Option<string>, since: nat, k: Kind): nat {
    if lines == [] then 0 else
      var l := lines[|lines| - 1];
      Count(lines[..|lines| - 1], name, only, since, k) + if Counted(l, only, since) && l.feature == name && IsOf(l.body, k) then 1 else 0
  }

  lemma NoteCounts(f: Feature, b: Body, k: Kind)
    ensures Counter(Note(f, b), k) == Counter(f, k) + if IsOf(b, k) then 1 else 0
  {
  }

  /** Each counter of a feature counts just the counted lines of its kind. */
  lemma {:induction false} CountersAreOfLines(lines: seq<Line>, name: string, only: Option<string>, since: nat, k: Kind)
    ensures Counter(OfFeature(lines, name, only, since), k) == Count(lines, name, only, since, k)
  {
    hide Note, IsOf;
    if lines != [] {
      var n := |lines| - 1;
      CountersAreOfLines(lines[..n], name, only, since, k);
      NoteCounts(OfFeature(lines[..n], name, only, since), lines[n].body, k);
    }
  }

  /** The mistakes of a feature are the distinct actions and targets of its counted mistake lines. */
  lemma {:induction false} MistakesAreOfLines(lines: seq<Line>, name: string, only: Option<string>, since: nat, m: (string, string))
    ensures m in OfFeature(lines, name, only, since).mistakes <==>
      exists l :: l in lines && Counted(l, only, since) && l.feature == name && l.body.Mistake? && (l.body.action, l.body.target) == m
  {
    if lines != [] {
      var n := |lines| - 1;
      MistakesAreOfLines(lines[..n], name, only, since, m);
      assert forall l :: l in lines <==> l == lines[n] || l in lines[..n];
    }
  }
}
