/** The daemon's CPU and memory budgets, kept up to date window by window, against what the history of windows and samples says. */
module Budget {
  import opened Prelude

  datatype Which = Cpu | Mem

  /** A breach that began or ended. */
  type Edge = Option<(Which, bool)>

  datatype Budgets = Budgets(
    cpuPct: real,
    overWindows: nat,
    memKb: nat,
    cpuBreached: bool,
    memBreached: bool,
    breaches: nat,
    hardOverWindows: nat,
    hardLimit: nat,
    hardBreaches: nat,
    shedding: bool)

  const AT_REST := Budgets(0.0, 0, 0, false, false, 0, 0, 0, 0, false)

  function Set(b: Budgets, which: Which, on: bool): (Budgets, Edge) {
    var was := if which.Cpu? then b.cpuBreached else b.memBreached;
    var b' := if which.Cpu? then b.(cpuBreached := on) else b.(memBreached := on);
    if was == on then (b, None) else (b'.(breaches := b.breaches + if on then 1 else 0), Some((which, on)))
  }

  function CpuWindow(b: Budgets, pct: real, limit: nat, windows: nat): (Budgets, Edge) {
    var over := if limit != 0 && pct >= limit as real then b.overWindows + 1 else 0;
    Set(b.(cpuPct := pct, overWindows := over), Cpu, limit != 0 && over >= Max(windows, 1))
  }

  /** A window against the hard limit; `Some(true)` when shedding begins, `Some(false)` when it ends. */
  function HardWindow(b: Budgets, pct: real, hard: nat, soft: nat, windows: nat): (Budgets, Option<bool>) {
    var recover := (if soft > 0 then soft else hard) as real;
    var over := if hard != 0 && pct >= hard as real then b.hardOverWindows + 1 else 0;
    var seen := b.(hardLimit := hard, hardOverWindows := over);
    if hard == 0 then (seen.(shedding := false), if b.shedding then Some(false) else None)
    else if !b.shedding && over >= Max(windows, 1) then (seen.(hardBreaches := b.hardBreaches + 1, shedding := true), Some(true))
    else if b.shedding && pct < recover then (seen.(shedding := false), Some(false))
    else (seen, None)
  }

  function MemSample(b: Budgets, memKb: nat, limitMb: nat): (Budgets, Edge) {
    Set(b.(memKb := memKb), Mem, limitMb != 0 && memKb > Min(limitMb * 1024, TWO_64 - 1))
  }

  class State {
    var b: Budgets

    constructor ()
      ensures b == AT_REST
    {
      b := AT_REST;
    }

    method RunSet(which: Which, on: bool) returns (e: Edge)
      modifies this
      ensures (b, e) == Set(old(b), which, on)
    {
      var was := match which case Cpu => b.cpuBreached case Mem => b.memBreached;
      if was == on {
        return None;
      }
      match which {
        case Cpu => b := b.(cpuBreached := on);
        case Mem => b := b.(memBreached := on);
      }
      if on {
        b := b.(breaches := b.breaches + 1);
      }
      e := Some((which, on));
    }

    method RunCpuWindow(pct: real, limit: nat, windows: nat) returns (e: Edge)
      modifies this
      ensures (b, e) == CpuWindow(old(b), pct, limit, windows)
    {
      b := b.(cpuPct := pct);
      if limit == 0 {
        b := b.(overWindows := 0);
        e := RunSet(Cpu, false);
        return;
      }
      b := b.(overWindows := if pct >= limit as real then b.overWindows + 1 else 0);
      e := RunSet(Cpu, b.overWindows >= Max(windows, 1));
    }

    method RunHardWindow(pct: real, hard: nat, soft: nat, windows: nat) returns (e: Option<bool>)
      modifies this
      ensures (b, e) == HardWindow(old(b), pct, hard, soft, windows)
    {
      b := b.(hardLimit := hard);
      var now := b.shedding;
      if hard == 0 {
        b := b.(hardOverWindows := 0, shedding := false);
        return if now then Some(false) else None;
      }
      b := b.(hardOverWindows := if pct >= hard as real then b.hardOverWindows + 1 else 0);
      var recover := (if soft > 0 then soft else hard) as real;
      if !now && b.hardOverWindows >= Max(windows, 1) {
        b := b.(hardBreaches := b.hardBreaches + 1, shedding := true);
        return Some(true);
      }
      if now && pct < recover {
        b := b.(shedding := false);
        return Some(false);
      }
      e := None;
    }

    method RunMemSample(memKb: nat, limitMb: nat) returns (e: Edge)
      modifies this
      ensures (b, e) == MemSample(old(b), memKb, limitMb)
    {
      b := b.(memKb := memKb);
      e := RunSet(Mem, limitMb != 0 && memKb > Min(limitMb * 1024, TWO_64 - 1));
    }
  }

  // ---- what the history says

  /** The limits in force over a whole run. */
  datatype Limits = Limits(cpu: nat, windows: nat, hard: nat, soft: nat, hardWindows: nat, memMb: nat)

  datatype Event = Window(pct: real) | HardCheck(pct: real) | Sample(memKb: nat)

  function After(l: Limits, es: seq<Event>): Budgets {
    if es == [] then AT_REST else
      var b := After(l, es[..|es| - 1]);
      match es[|es| - 1]
      case Window(pct) => CpuWindow(b, pct, l.cpu, l.windows).0
      case HardCheck(pct) => HardWindow(b, pct, l.hard, l.soft, l.hardWindows).0
      case Sample(kb) => MemSample(b, kb, l.memMb).0
  }

  function Windows(es: seq<Event>): seq<real> {
    if es == [] then [] else
      Windows(es[..|es| - 1]) + match es[|es| - 1] case Window(pct) => [pct] case _ => []
  }

  function HardChecks(es: seq<Event>): seq<real> {
    if es == [] then [] else
      HardChecks(es[..|es| - 1]) + match es[|es| - 1] case HardCheck(pct) => [pct] case _ => []
  }

  function Samples(es: seq<Event>): seq<nat> {
    if es == [] then [] else
      Samples(es[..|es| - 1]) + match es[|es| - 1] case Sample(kb) => [kb] case _ => []
  }

  /** The last `n` windows there were all reach the limit, and there were as many. */
  predicate LastReach(w: seq<real>, n: nat, limit: nat) {
    n <= |w| && forall i :: |w| - n <= i < |w| ==> w[i] >= limit as real
  }

  predicate CpuBreach(w: seq<real>, l: Limits) {
    l.cpu != 0 && LastReach(w, Max(l.windows, 1), l.cpu)
  }

  predicate MemBreach(m: seq<nat>, l: Limits) {
    l.memMb != 0 && m != [] && m[|m| - 1] > Min(l.memMb * 1024, TWO_64 - 1)
  }

  predicate StaysUp(w: seq<real>, from: nat, l: Limits) {
    forall i :: from <= i < |w| ==> w[i] >= (if l.soft > 0 then l.soft else l.hard) as real
  }

  /** A full hard run, and from its end on every window at or above the recovery level. */
  ghost predicate Sheds(w: seq<real>, l: Limits) {
    && l.hard != 0
    && exists j :: 0 <= j <= |w| && LastReach(w[..j], Max(l.hardWindows, 1), l.hard) && StaysUp(w, j, l)
  }

  function CpuRises(w: seq<real>, l: Limits): nat {
    if w == [] then 0 else
      CpuRises(w[..|w| - 1], l) + if CpuBreach(w, l) && !CpuBreach(w[..|w| - 1], l) then 1 else 0
  }

  function MemRises(m: seq<nat>, l: Limits): nat {
    if m == [] then 0 else
      MemRises(m[..|m| - 1], l) + if MemBreach(m, l) && !MemBreach(m[..|m| - 1], l) then 1 else 0
  }

  ghost function ShedRises(w: seq<real>, l: Limits): nat {
    if w == [] then 0 else
      ShedRises(w[..|w| - 1], l) + if Sheds(w, l) && !Sheds(w[..|w| - 1], l) then 1 else 0
  }

  /** How many windows at the end reach the limit. */
  function Streak(w: seq<real>, limit: nat): nat {
    if w == [] || limit == 0 || w[|w| - 1] < limit as real then 0 else Streak(w[..|w| - 1], limit) + 1
  }

  lemma {:induction false} StreakIsLast(w: seq<real>, limit: nat, n: nat)
    requires limit != 0
    ensures Streak(w, limit) >= n <==> LastReach(w, n, limit)
    decreases |w|
  {
    if w != [] && w[|w| - 1] >= limit as real && n > 0 {
      var before := w[..|w| - 1];
      StreakIsLast(before, limit, n - 1);
      if LastReach(before, n - 1, limit) {
        assert forall i :: |w| - n <= i < |w| - 1 ==> before[i] == w[i];
      }
    }
  }

  // ---- the CPU and memory budgets

  /** The CPU and memory part of the state is what the history says. */
  ghost predicate Tracks(b: Budgets, w: seq<real>, m: seq<nat>, l: Limits) {
    && b.overWindows == Streak(w, l.cpu)
    && b.cpuBreached == CpuBreach(w, l) && b.memBreached == MemBreach(m, l)
    && b.breaches == CpuRises(w, l) + MemRises(m, l)
  }

  lemma WindowTracks(b: Budgets, w: seq<real>, m: seq<nat>, l: Limits, pct: real)
    requires Tracks(b, w, m, l)
    ensures Tracks(CpuWindow(b, pct, l.cpu, l.windows).0, w + [pct], m, l)
  {
    hide CpuBreach, MemBreach;
    assert (w + [pct])[..|w|] == w;
    if l.cpu != 0 { StreakIsLast(w + [pct], l.cpu, Max(l.windows, 1)); }
    assert CpuBreach(w + [pct], l) == (l.cpu != 0 && LastReach(w + [pct], Max(l.windows, 1), l.cpu)) by { BreachIs(w + [pct], l); }
  }

  lemma BreachIs(w: seq<real>, l: Limits)
    ensures CpuBreach(w, l) == (l.cpu != 0 && LastReach(w, Max(l.windows, 1), l.cpu))
  {
  }

  lemma SampleTracks(b: Budgets, w: seq<real>, m: seq<nat>, l: Limits, kb: nat)
    requires Tracks(b, w, m, l)
    ensures Tracks(MemSample(b, kb, l.memMb).0, w, m + [kb], l)
  {
    hide CpuBreach;
    assert (m + [kb])[..|m|] == m;
  }

  /**
   Over any run, the CPU budget is breached just when as many windows in a row as it takes reach the limit, the memory budget just when
   the last sample is over its limit, and the breaches counted are the times that either began.
   */
  lemma {:induction false} BudgetsFollowHistory(l: Limits, es: seq<Event>)
    ensures Tracks(After(l, es), Windows(es), Samples(es), l)
  {
    if es != [] {
      hide Tracks;
      var n := |es| - 1;
      BudgetsFollowHistory(l, es[..n]);
      var b, w, m := After(l, es[..n]), Windows(es[..n]), Samples(es[..n]);
      assert w + [] == w && m + [] == m;
      match es[n]
      case Window(pct) => WindowTracks(b, w, m, l, pct);
      case Sample(kb) => SampleTracks(b, w, m, l, kb);
      case HardCheck(pct) => HardFrame(b, w, m, l, pct);
    }
  }

  lemma HardFrame(b: Budgets, w: seq<real>, m: seq<nat>, l: Limits, pct: real)
    requires Tracks(b, w, m, l)
    ensures Tracks(HardWindow(b, pct, l.hard, l.soft, l.hardWindows).0, w, m, l)
  {
  }

  /** What a window or a sample answers: a breach that began or ended, just when one did. */
  lemma AnswersAreEdges(b: Budgets, pct: real, kb: nat, l: Limits)
    ensures var (b', e) := CpuWindow(b, pct, l.cpu, l.windows);
      e == if b'.cpuBreached == b.cpuBreached then None else Some((Cpu, b'.cpuBreached))
    ensures var (b', e) := MemSample(b, kb, l.memMb);
      e == if b'.memBreached == b.memBreached then None else Some((Mem, b'.memBreached))
    ensures var (b', e) := HardWindow(b, pct, l.hard, l.soft, l.hardWindows);
      e == if b'.shedding == b.shedding then None else Some(b'.shedding)
  {
  }

  /** What is shown beside the breaches is that of the last window, hard check and sample, or nothing where there was none. */
  lemma {:induction false} LastIsShown(l: Limits, es: seq<Event>)
    ensures var (b, w, m) := (After(l, es), Windows(es), Samples(es));
      && b.cpuPct == (if w == [] then 0.0 else w[|w| - 1])
      && b.memKb == (if m == [] then 0 else m[|m| - 1])
      && b.hardLimit == (if HardChecks(es) == [] then 0 else l.hard)
  {
    if es != [] {
      var b := After(l, es[..|es| - 1]);
      LastIsShown(l, es[..|es| - 1]);
      match es[|es| - 1]
      case Window(pct) => Shown(b, l, pct, 0);
      case HardCheck(pct) => Shown(b, l, pct, 0);
      case Sample(kb) => Shown(b, l, 0.0, kb);
      hide CpuWindow, HardWindow, MemSample;
    }
  }

  lemma Shown(b: Budgets, l: Limits, pct: real, kb: nat)
    ensures CpuWindow(b, pct, l.cpu, l.windows).0.(breaches := b.breaches, cpuBreached := b.cpuBreached, overWindows := b.overWindows)
      == b.(cpuPct := pct)
    ensures MemSample(b, kb, l.memMb).0.(breaches := b.breaches, memBreached := b.memBreached) == b.(memKb := kb)
    ensures HardWindow(b, pct, l.hard, l.soft, l.hardWindows).0.(shedding := b.shedding, hardBreaches := b.hardBreaches,
      hardOverWindows := b.hardOverWindows) == b.(hardLimit := l.hard)
  {
  }

  // ---- shedding

  ghost predicate ShedTracks(b: Budgets, w: seq<real>, l: Limits) {
    b.hardOverWindows == Streak(w, l.hard) && b.shedding == Sheds(w, l) && b.hardBreaches == ShedRises(w, l)
  }

  predicate RecoversBelowHard(l: Limits) {
    l.soft <= l.hard
  }

  /** One more window: shedding goes on while it stays at the recovery level, and begins at the end of a full hard run. */
  lemma ShedsNext(w: seq<real>, l: Limits, pct: real)
    requires l.hard != 0
    ensures Sheds(w + [pct], l) <==>
      (Sheds(w, l) && pct >= (if l.soft > 0 then l.soft else l.hard) as real) || LastReach(w + [pct], Max(l.hardWindows, 1), l.hard)
  {
    var more := w + [pct];
    assert more[..|more|] == more && forall j :: 0 <= j <= |w| ==> more[..j] == w[..j];
    if Sheds(w, l) && pct >= (if l.soft > 0 then l.soft else l.hard) as real {
      var j :| 0 <= j <= |w| && LastReach(w[..j], Max(l.hardWindows, 1), l.hard) && StaysUp(w, j, l);
      assert LastReach(more[..j], Max(l.hardWindows, 1), l.hard);
    }
    if LastReach(more, Max(l.hardWindows, 1), l.hard) {
      assert LastReach(more[..|more|], Max(l.hardWindows, 1), l.hard);
    }
    if Sheds(more, l) {
      var j :| 0 <= j <= |more| && LastReach(more[..j], Max(l.hardWindows, 1), l.hard) && StaysUp(more, j, l);
      if j <= |w| {
        assert LastReach(w[..j], Max(l.hardWindows, 1), l.hard) && more[|w|] == pct;
        assert StaysUp(w, j, l) by { assert forall i :: j <= i < |w| ==> w[i] == more[i]; }
      }
    }
  }

  lemma HardTracks(b: Budgets, w: seq<real>, l: Limits, pct: real)
    requires ShedTracks(b, w, l) && RecoversBelowHard(l)
    ensures ShedTracks(HardWindow(b, pct, l.hard, l.soft, l.hardWindows).0, w + [pct], l)
  {
    hide LastReach;
    assert (w + [pct])[..|w|] == w;
    if l.hard != 0 {
      hide Sheds;
      ShedsNext(w, l, pct);
      StreakIsLast(w + [pct], l.hard, Max(l.hardWindows, 1));
    }
  }

  /** With a recovery level no higher than the hard limit, shedding is on just when the history says so, and is counted each time it begins. */
  lemma {:induction false} SheddingFollowsHistory(l: Limits, es: seq<Event>)
    requires RecoversBelowHard(l)
    ensures ShedTracks(After(l, es), HardChecks(es), l)
  {
    if es == [] {
      NeverSheds(l);
    } else {
      hide ShedTracks;
      var n := |es| - 1;
      SheddingFollowsHistory(l, es[..n]);
      var b, w := After(l, es[..n]), HardChecks(es[..n]);
      assert w + [] == w;
      match es[n]
      case HardCheck(pct) => HardTracks(b, w, l, pct);
      case Window(pct) => ShedFrame(b, CpuWindow(b, pct, l.cpu, l.windows).0, w, l);
      case Sample(kb) => ShedFrame(b, MemSample(b, kb, l.memMb).0, w, l);
    }
  }

  lemma NeverSheds(l: Limits)
    ensures !Sheds([], l)
  {
    var none: seq<real> := [];
    assert none[..0] == none;
  }

  lemma ShedFrame(b: Budgets, b': Budgets, w: seq<real>, l: Limits)
    requires ShedTracks(b, w, l)
    requires b'.hardOverWindows == b.hardOverWindows && b'.shedding == b.shedding && b'.hardBreaches == b.hardBreaches
    ensures ShedTracks(b', w, l)
  {
  }

  /** A run of windows at the hard limit. */
  function AtLimit(hard: nat, n: nat): seq<Event> {
    seq(n, i => HardCheck(hard as real))
  }

  /** Shedding follows the history over every run just when the recovery level is no higher than the hard limit, or there is no hard limit. */
  lemma SheddingIsExact(l: Limits)
    ensures (forall es: seq<Event> :: After(l, es).shedding == Sheds(HardChecks(es), l)) <==> (RecoversBelowHard(l) || l.hard == 0)
  {
    if RecoversBelowHard(l) {
      forall es: seq<Event> ensures After(l, es).shedding == Sheds(HardChecks(es), l) {
        SheddingFollowsHistory(l, es);
      }
    } else if l.hard == 0 {
      forall es: seq<Event> ensures After(l, es).shedding == Sheds(HardChecks(es), l) {
        NoHardLimit(l, es);
      }
    } else {
      var m := Max(l.hardWindows, 1);
      var es := AtLimit(l.hard, m + 1);
      Flaps(l, m + 1);
      assert !After(l, es).shedding && Sheds(HardChecks(es), l);
    }
  }

  lemma {:induction false} NoHardLimit(l: Limits, es: seq<Event>)
    requires l.hard == 0
    ensures !After(l, es).shedding
  {
    if es != [] { NoHardLimit(l, es[..|es| - 1]); }
  }

  /** At the hard limit all along, under a higher recovery level, shedding ends in the window after it began. */
  lemma {:induction false} Flaps(l: Limits, n: nat)
    requires l.soft > l.hard > 0 && n <= Max(l.hardWindows, 1) + 1
    ensures var m, b := Max(l.hardWindows, 1), After(l, AtLimit(l.hard, n));
      && b.hardOverWindows == n && b.shedding == (n == m)
      && |HardChecks(AtLimit(l.hard, n))| == n
      && (forall i :: 0 <= i < n ==> HardChecks(AtLimit(l.hard, n))[i] == l.hard as real)
      && (n >= m ==> Sheds(HardChecks(AtLimit(l.hard, n)), l))
  {
    var m, es := Max(l.hardWindows, 1), AtLimit(l.hard, n);
    if n > 0 {
      Flaps(l, n - 1);
      assert es[..n - 1] == AtLimit(l.hard, n - 1);
    }
    var w := HardChecks(es);
    if n >= m {
      assert w[..|w|] == w && LastReach(w[..|w|], m, l.hard);
    }
  }
}
