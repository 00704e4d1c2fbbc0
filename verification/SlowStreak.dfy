/** Slow replies in a row: the streak kept in a file, against the slow replies that came. */
module SlowStreak {
  import opened Prelude

  datatype Event = Slow(now: nat) | Normal

  /** The streak file: how many slow replies, and when the first of them came. */
  type Streak = Option<(nat, nat)>

  /** The streak after a reply, and whether it tripped. */
  function Step(s: Streak, e: Event, n: nat, window: nat): (Streak, bool) {
    match e
    case Normal => (None, false)
    case Slow(now) =>
      var (count, first) := if s.Some? && SatSub(now, s.value.1) <= window then (s.value.0 + 1, s.value.1) else (1, now);
      if count >= n then (None, true) else (Some((count, first)), false)
  }

  class Client {
    var file: Streak

    constructor ()
      ensures file == None
    {
      file := None;
    }

    method SlowReply(now: nat, n: nat, window: nat) returns (tripped: bool)
      modifies this
      ensures (file, tripped) == Step(old(file), Slow(now), n, window)
    {
      var count, first := 1, now;
      if file.Some? {
        var (c, f) := file.value;
        if SatSub(now, f) <= window {
          count, first := c + 1, f;
        }
      }
      if count >= n {
        file := None;
        return true;
      }
      file := Some((count, first));
      tripped := false;
    }

    method NormalReply(n: nat, window: nat)
      modifies this
      ensures file == Step(old(file), Normal, n, window).0
    {
      file := None;
    }
  }

  function After(es: seq<Event>, n: nat, window: nat): Streak {
    if es == [] then None else Step(After(es[..|es| - 1], n, window), es[|es| - 1], n, window).0
  }

  /** Did the reply at `i` trip the streak? */
  predicate Trips(es: seq<Event>, i: nat, n: nat, window: nat)
    requires i < |es|
  {
    Step(After(es[..i], n, window), es[i], n, window).1
  }

  ghost predicate InTime(es: seq<Event>) {
    forall i, j :: 0 <= i < j < |es| && es[i].Slow? && es[j].Slow? ==> es[i].now <= es[j].now
  }

  /** The replies from `from` to before `to` are all slow, and none of them tripped. */
  ghost predicate SlowRun(es: seq<Event>, from: nat, to: nat, n: nat, window: nat) {
    from <= to <= |es| && forall i :: from <= i < to ==> es[i].Slow? && !Trips(es, i, n, window)
  }

  /** As many slow replies in a row as it takes, since any trip before, within the window. */
  ghost predicate Due(es: seq<Event>, i: nat, n: nat, window: nat)
    requires i < |es|
  {
    var m := Max(n, 1);
    && i + 1 >= m && es[i].Slow? && SlowRun(es, i + 1 - m, i, n, window)
    && es[i].now - es[i + 1 - m].now <= window
  }

  lemma AfterNext(es: seq<Event>, i: nat, n: nat, window: nat)
    requires i < |es|
    ensures After(es[..i + 1], n, window) == Step(After(es[..i], n, window), es[i], n, window).0
  {
    assert es[..i + 1][..i] == es[..i];
  }

  /** A streak that counts the slow replies in a row before `i`, all within the window of the first. */
  ghost predicate CountsRun(es: seq<Event>, i: nat, s: Streak, n: nat, window: nat)
    requires i <= |es|
  {
    s.Some? ==>
      var (count, first) := s.value;
      && 1 <= count < Max(n, 1) && count <= i && SlowRun(es, i - count, i, n, window)
      && es[i - count].now == first && es[i - 1].now - first <= window
  }

  lemma RunGrows(es: seq<Event>, i: nat, s: Streak, n: nat, window: nat)
    requires i < |es| && s == After(es[..i], n, window) && CountsRun(es, i, s, n, window)
    ensures CountsRun(es, i + 1, Step(s, es[i], n, window).0, n, window)
  {
    hide After;
    var t := Step(s, es[i], n, window).0;
    if t.Some? && t.value.0 > 1 {
      assert SlowRun(es, i - s.value.0, i, n, window) && !Trips(es, i, n, window);
    }
  }

  /** What the file says after `i` replies. */
  lemma {:induction false} FileIsRun(es: seq<Event>, i: nat, n: nat, window: nat)
    requires i <= |es|
    ensures CountsRun(es, i, After(es[..i], n, window), n, window)
  {
    if i == 0 {
      assert es[..0] == [];
    } else {
      hide CountsRun;
      FileIsRun(es, i - 1, n, window);
      AfterNext(es, i - 1, n, window);
      RunGrows(es, i - 1, After(es[..i - 1], n, window), n, window);
    }
  }

  /** A trip means that it is due, whatever the clock reads. */
  lemma TripsAreDue(es: seq<Event>, i: nat, n: nat, window: nat)
    requires i < |es| && Trips(es, i, n, window)
    ensures Due(es, i, n, window)
  {
    FileIsRun(es, i, n, window);
  }

  /** With at most two replies to a streak, every trip that is due happens, whatever the clock reads. */
  lemma ShortStreakTrips(es: seq<Event>, i: nat, n: nat, window: nat)
    requires i < |es| && Due(es, i, n, window) && n <= 2
    ensures Trips(es, i, n, window)
  {
    if n == 2 {
      AfterNext(es, i - 1, n, window);
      assert !Trips(es, i - 1, n, window);
      FileIsRun(es, i - 1, n, window);
    }
  }

  /** So it does with no window to speak of, while the clock does not go back. */
  lemma DueTrips(es: seq<Event>, i: nat, n: nat, window: nat)
    requires i < |es| && InTime(es) && Due(es, i, n, window) && (n <= 2 || window == 0)
    ensures Trips(es, i, n, window)
  {
    if n <= 2 {
      ShortStreakTrips(es, i, n, window);
    } else {
      CountIsRun(es, i, n, window, n - 1);
    }
  }

  /** After a run of slow replies at one time the file counts at least as many. */
  lemma {:induction false} CountIsRun(es: seq<Event>, i: nat, n: nat, window: nat, c: nat)
    requires i <= |es| && InTime(es) && 1 <= c <= i && SlowRun(es, i - c, i, n, window) && window == 0
    requires forall j :: i - c <= j < i ==> es[j].now == es[i - 1].now
    ensures var s := After(es[..i], n, window);
      s.Some? && s.value.0 >= c && s.value.1 == es[i - 1].now
  {
    hide Step, After, InTime;
    var before, now := After(es[..i - 1], n, window), es[i - 1].now;
    AfterNext(es, i - 1, n, window);
    assert !Trips(es, i - 1, n, window);
    FirstIsPast(es, i - 1, n, window);
    if c > 1 {
      ShorterRun(es, i - c, i, n, window);
      assert forall j :: i - c <= j < i - 1 ==> es[j].now == es[i - 2].now;
      CountIsRun(es, i - 1, n, window, c - 1);
      StepCounts(before, now, n, window, c - 1);
    } else {
      StepCounts(before, now, n, window, 0);
    }
  }

  lemma FirstIsPast(es: seq<Event>, i: nat, n: nat, window: nat)
    requires i < |es| && InTime(es) && es[i].Slow?
    ensures After(es[..i], n, window).Some? ==> After(es[..i], n, window).value.1 <= es[i].now && After(es[..i], n, window).value.0 >= 1
  {
    FileIsRun(es, i, n, window);
  }

  lemma ShorterRun(es: seq<Event>, from: nat, to: nat, n: nat, window: nat)
    requires SlowRun(es, from, to, n, window) && from < to
    ensures SlowRun(es, from, to - 1, n, window)
  {
  }

  lemma StepCounts(s: Streak, now: nat, n: nat, window: nat, c: nat)
    requires !Step(s, Slow(now), n, window).1 && (s.Some? ==> s.value.1 <= now && s.value.0 >= 1) && window == 0
    requires c > 0 ==> s.Some? && s.value.0 >= c && s.value.1 == now
    ensures var t := Step(s, Slow(now), n, window).0;
      t.Some? && t.value.0 >= c + 1 && t.value.1 == now
  {
  }

  /** One slow reply, then all but two of a streak's at the end of its window, then two just after. */
  function Straddle(n: nat, window: nat): seq<Event>
    requires n >= 3
  {
    [Slow(0)] + seq(n - 2, _ => Slow(window)) + [Slow(window + 1), Slow(window + 1)]
  }

  lemma {:induction false} StraddleCounts(n: nat, window: nat, k: nat)
    requires n >= 3 && window > 0 && k <= n - 2
    ensures After(Straddle(n, window)[..k + 1], n, window) == Some((k + 1, 0))
    ensures forall i :: 0 <= i <= k ==> !Trips(Straddle(n, window), i, n, window)
  {
    var es := Straddle(n, window);
    AfterNext(es, k, n, window);
    if k == 0 {
      assert es[..0] == [];
    } else {
      StraddleCounts(n, window, k - 1);
    }
  }

  /** A streak that is due and does not trip: the window is counted from the first slow reply of a group, and a late one starts a new group. */
  lemma StraddleIsMissed(n: nat, window: nat)
    requires n >= 3 && window > 0
    ensures var es := Straddle(n, window);
      InTime(es) && Due(es, n, n, window) && !Trips(es, n, n, window)
  {
    var es := Straddle(n, window);
    StraddleCounts(n, window, n - 2);
    AfterNext(es, n - 1, n, window);
    assert After(es[..n], n, window) == Some((1, window + 1));
  }

  /** One slow reply, another after the window of the first, and the rest of a streak at the time of the first: the clock went back. */
  function Backward(n: nat, window: nat): seq<Event>
    requires n >= 3
  {
    [Slow(1), Slow(window + 2)] + seq(n - 2, _ => Slow(1))
  }

  lemma {:induction false} BackwardCounts(n: nat, window: nat, k: nat)
    requires n >= 3 && 1 <= k < n
    ensures After(Backward(n, window)[..k + 1], n, window) == Some((k, window + 2))
    ensures forall i :: 0 <= i <= k ==> !Trips(Backward(n, window), i, n, window)
  {
    var es := Backward(n, window);
    AfterNext(es, k, n, window);
    if k == 1 {
      assert es[..0] == [];
      AfterNext(es, 0, n, window);
    } else {
      BackwardCounts(n, window, k - 1);
    }
  }

  /** With a clock that goes back, a streak of any length above two is missed under every window. */
  lemma BackwardIsMissed(n: nat, window: nat)
    requires n >= 3
    ensures var es := Backward(n, window); Due(es, n - 1, n, window) && !Trips(es, n - 1, n, window)
  {
    BackwardCounts(n, window, n - 1);
  }

  /**
   A streak trips just when it is due, over every run whose clock does not go back, exactly if it takes at most two replies or has no
   window.
   */
  lemma TripsExactlyInTime(n: nat, window: nat)
    ensures (forall es: seq<Event>, i: nat :: i < |es| && InTime(es) ==> (Trips(es, i, n, window) <==> Due(es, i, n, window)))
      <==> (n <= 2 || window == 0)
  {
    if n <= 2 || window == 0 {
      forall es: seq<Event>, i: nat | i < |es| && InTime(es) ensures Trips(es, i, n, window) <==> Due(es, i, n, window) {
        if Trips(es, i, n, window) { TripsAreDue(es, i, n, window); }
        if Due(es, i, n, window) { DueTrips(es, i, n, window); }
      }
    } else {
      StraddleIsMissed(n, window);
    }
  }

  /** Over every run, whatever the clock reads: exactly if it takes at most two replies. */
  lemma TripsExactly(n: nat, window: nat)
    ensures (forall es: seq<Event>, i: nat :: i < |es| ==> (Trips(es, i, n, window) <==> Due(es, i, n, window))) <==> n <= 2
  {
    if n <= 2 {
      forall es: seq<Event>, i: nat | i < |es| ensures Trips(es, i, n, window) <==> Due(es, i, n, window) {
        if Trips(es, i, n, window) { TripsAreDue(es, i, n, window); }
        if Due(es, i, n, window) { ShortStreakTrips(es, i, n, window); }
      }
    } else {
      BackwardIsMissed(n, window);
    }
  }
}
