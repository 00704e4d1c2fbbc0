/** The latencies of the report over the action log: their sum, count and maximum are those of the lines. */
module ReportLatencies {
  import opened Prelude
  import opened ActionReport

  /** The latencies of the counted actions of a feature, in the order of the log. */
  function Latencies(lines: seq<Line>, name: string, only: Option<string>, since: nat): seq<nat> {
    if lines == [] then [] else
      var l := lines[|lines| - 1];
      Latencies(lines[..|lines| - 1], name, only, since) +
        if l.ts >= since && l.feature == name && l.feature != "" && (only == None || only == Some(name)) && l.body.Action? && l.body.latency.Some?
        then [l.body.latency.value] else []
  }

  function Sum(ns: seq<nat>): nat {
    if ns == [] then 0 else Sum(ns[..|ns| - 1]) + ns[|ns| - 1]
  }

  /** Noting one more line: its latency if it is a counted action of the feature that has one. */
  lemma NoteLatency(f: Feature, b: Body)
    ensures var g := Note(f, b);
      if b.Action? && b.latency.Some?
      then g.latencySum == f.latencySum + b.latency.value && g.latencyN == f.latencyN + 1
           && g.latencyMax == if f.latencyMax < b.latency.value then b.latency.value else f.latencyMax
      else g.latencySum == f.latencySum && g.latencyN == f.latencyN && g.latencyMax == f.latencyMax
  {
  }

  lemma SumSnoc(ns: seq<nat>, n: nat)
    ensures Sum(ns + [n]) == Sum(ns) + n
  {
    assert (ns + [n])[..|ns|] == ns;
  }

  /** `top` is the greatest of the numbers, and 0 when there are none. */
  predicate Greatest(ns: seq<nat>, top: nat) {
    (forall n :: n in ns ==> n <= top) && if ns == [] then top == 0 else top in ns
  }

  lemma GreatestSnoc(ns: seq<nat>, top: nat, n: nat)
    requires Greatest(ns, top)
    ensures Greatest(ns + [n], if top < n then n else top)
  {
  }

  lemma OfFeatureLast(lines: seq<Line>, name: string, only: Option<string>, since: nat)
    requires lines != []
    ensures var (l, before) := (lines[|lines| - 1], OfFeature(lines[..|lines| - 1], name, only, since));
      OfFeature(lines, name, only, since) ==
        if since <= l.ts && l.feature != "" && (only.Some? ==> only == Some(l.feature)) && l.feature == name then Note(before, l.body) else before
  {
    hide Note;
  }

  /** The sum, the count and the maximum of a feature's latencies are those of its counted actions that have one. */
  lemma {:induction false} LatenciesAreOfLines(lines: seq<Line>, name: string, only: Option<string>, since: nat)
    ensures var (f, ns) := (OfFeature(lines, name, only, since), Latencies(lines, name, only, since));
      f.latencySum == Sum(ns) && f.latencyN == |ns| && Greatest(ns, f.latencyMax)
  {
    if lines != [] {
      var n := |lines| - 1;
      LatenciesAreOfLines(lines[..n], name, only, since);
      OfFeatureLast(lines, name, only, since);
      var before := Latencies(lines[..n], name, only, since);
      var f := OfFeature(lines[..n], name, only, since);
      NoteLatency(f, lines[n].body);
      assert before + [] == before;
      hide OfFeature, Note, Greatest, Sum;
      if lines[n].body.Action? && lines[n].body.latency.Some? {
        SumSnoc(before, lines[n].body.latency.value);
        GreatestSnoc(before, f.latencyMax, lines[n].body.latency.value);
      }
    }
  }

  /** A line is counted when it is in the window, names a feature, and that is the one asked for if one is. */
  lemma WhichLinesCount(l: Line, only: Option<string>, since: nat)
    ensures Counted(l, only, since) <==> since <= l.ts && l.feature != "" && (only.Some? ==> only == Some(l.feature))
  {
  }
}
