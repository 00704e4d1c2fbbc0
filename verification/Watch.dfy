/** The watcher of the config files: a change is reloaded once it has stayed the same for long enough. */
module Watch {
  import opened Prelude

  /** What the watcher compares; equal marks are taken for equal files. */
  type Mark = nat

  datatype Limits = Limits(watchMs: nat, debounceMs: nat)

  /** One look at the files: when, what they show, and what a reload that follows finds them to be. */
  datatype Look = Look(now: nat, mark: Mark, atReload: Mark)

  datatype State = State(seen: Mark, pending: Option<(Mark, nat)>, lastPoll: nat)

  /** Is this look too soon after the last one to count? */
  predicate TooSoon(s: State, l: Look, lim: Limits) {
    SatSub(l.now, s.lastPoll) < lim.watchMs
  }

  /** The state after a look, and whether it reloads. */
  function Poll(s: State, l: Look, lim: Limits): (State, bool) {
    if TooSoon(s, l, lim) then (s, false)
    else if l.mark == s.seen then (State(s.seen, None, l.now), false)
    else
      var settling := s.pending.Some? && s.pending.value.0 == l.mark;
      if settling && SatSub(l.now, s.pending.value.1) < lim.debounceMs then (State(s.seen, s.pending, l.now), false)
      else if !settling && lim.debounceMs != 0 then (State(s.seen, Some((l.mark, l.now)), l.now), false)
      else (State(l.atReload, None, l.now), true)
  }

  class Watcher {
    var seen: Mark
    var pending: Option<(Mark, nat)>
    var lastPoll: nat

    function Now(): State
      reads this
    {
      State(seen, pending, lastPoll)
    }

    constructor (seen: Mark, now: nat)
      ensures Now() == State(seen, None, now)
    {
      this.seen, pending, lastPoll := seen, None, now;
    }

    method RunPoll(l: Look, lim: Limits) returns (reload: bool)
      modifies this
      ensures (Now(), reload) == Poll(old(Now()), l, lim)
    {
      if SatSub(l.now, lastPoll) < lim.watchMs {
        return false;
      }
      lastPoll := l.now;
      if l.mark == seen {
        pending := None;
        return false;
      }
      if pending.Some? && pending.value.0 == l.mark {
        if SatSub(l.now, pending.value.1) < lim.debounceMs {
          return false;
        }
      } else {
        pending := Some((l.mark, l.now));
        if lim.debounceMs != 0 {
          return false;
        }
      }
      pending := None;
      seen := l.atReload;
      reload := true;
    }
  }

  /** A look within the interval of the last one that counted changes nothing; any other is the new last one, and no change ends a wait. */
  lemma LooksCount(s: State, l: Look, lim: Limits)
    ensures lim.watchMs > 0 && l.now < s.lastPoll + lim.watchMs ==> Poll(s, l, lim) == (s, false)
    ensures (lim.watchMs == 0 || l.now >= s.lastPoll + lim.watchMs) ==> Poll(s, l, lim).0.lastPoll == l.now
    ensures (lim.watchMs == 0 || l.now >= s.lastPoll + lim.watchMs) && l.mark == s.seen ==> Poll(s, l, lim) == (State(s.seen, None, l.now), false)
  {
  }

  // ---- runs

  function Run(s: State, looks: seq<Look>, lim: Limits): State {
    if looks == [] then s else Poll(Run(s, looks[..|looks| - 1], lim), looks[|looks| - 1], lim).0
  }

  predicate Counts(s: State, looks: seq<Look>, n: nat, lim: Limits)
    requires n < |looks|
  {
    !TooSoon(Run(s, looks[..n], lim), looks[n], lim)
  }

  predicate Reloads(s: State, looks: seq<Look>, n: nat, lim: Limits)
    requires n < |looks|
  {
    Poll(Run(s, looks[..n], lim), looks[n], lim).1
  }

  /** From the look at `m`, which counts, up to but not including `to`, every look that counts shows `mark`, and none reloads. */
  ghost predicate ShowsSince(s: State, looks: seq<Look>, m: nat, to: nat, mark: Mark, lim: Limits) {
    && m < to <= |looks| && Counts(s, looks, m, lim)
    && forall i :: m <= i < to ==> (Counts(s, looks, i, lim) ==> looks[i].mark == mark) && !Reloads(s, looks, i, lim)
  }

  lemma RunNext(s: State, looks: seq<Look>, n: nat, lim: Limits)
    requires n < |looks|
    ensures Run(s, looks[..n + 1], lim) == Poll(Run(s, looks[..n], lim), looks[n], lim).0
  {
    assert looks[..n + 1][..n] == looks[..n];
  }

  /** What is pending after `n` looks is what they have shown since it was first noticed, and not what was last reloaded. */
  lemma {:induction false} PendingIsShown(s: State, looks: seq<Look>, n: nat, lim: Limits) returns (m: nat)
    requires s.pending.None? && n <= |looks| && Run(s, looks[..n], lim).pending.Some?
    ensures var (mark, since) := Run(s, looks[..n], lim).pending.value;
      ShowsSince(s, looks, m, n, mark, lim) && looks[m].now == since && mark != Run(s, looks[..n], lim).seen
    decreases n
  {
    m := n;
    assert looks[..0] == [];
    if n > 0 {
      hide Poll, ShowsSince;
      var before, l := Run(s, looks[..n - 1], lim), looks[n - 1];
      RunNext(s, looks, n - 1, lim);
      PendingCameFrom(before, l, lim);
      hide Run;
      if before.pending == Run(s, looks[..n], lim).pending {
        m := PendingIsShown(s, looks, n - 1, lim);
        Longer(s, looks, m, n, before.pending.value.0, lim);
      } else {
        m := n - 1;
        Noticed(s, looks, m, lim);
      }
    }
  }

  lemma PendingCameFrom(s: State, l: Look, lim: Limits)
    requires Poll(s, l, lim).0.pending.Some?
    ensures var (s', reload) := Poll(s, l, lim);
      && !reload && s'.seen == s.seen
      && (!TooSoon(s, l, lim) ==> l.mark == s'.pending.value.0 != s.seen)
      && (s'.pending == s.pending || (!TooSoon(s, l, lim) && s'.pending.value.1 == l.now))
  {
  }

  lemma Longer(s: State, looks: seq<Look>, m: nat, n: nat, mark: Mark, lim: Limits)
    requires 0 < n <= |looks| && ShowsSince(s, looks, m, n - 1, mark, lim) && !Reloads(s, looks, n - 1, lim)
    requires Counts(s, looks, n - 1, lim) ==> looks[n - 1].mark == mark
    ensures ShowsSince(s, looks, m, n, mark, lim)
  {
  }

  lemma Noticed(s: State, looks: seq<Look>, m: nat, lim: Limits)
    requires m < |looks| && Counts(s, looks, m, lim) && !Reloads(s, looks, m, lim)
    ensures ShowsSince(s, looks, m, m + 1, looks[m].mark, lim)
  {
  }

  /**
   A look reloads only when it counts and shows a change, and every look that counted since one at least the settling time before
   showed that same change.
   */
  lemma ReloadsAreSettled(s: State, looks: seq<Look>, n: nat, lim: Limits) returns (m: nat)
    requires s.pending.None? && n < |looks| && Reloads(s, looks, n, lim)
    ensures m <= n && looks[n].mark != Run(s, looks[..n], lim).seen && Counts(s, looks, n, lim)
    ensures m < n ==> ShowsSince(s, looks, m, n, looks[n].mark, lim)
    ensures SatSub(looks[n].now, looks[m].now) >= lim.debounceMs
  {
    m := n;
    var before := Run(s, looks[..n], lim);
    if before.pending.Some? && before.pending.value.0 == looks[n].mark {
      m := PendingIsShown(s, looks, n, lim);
    }
  }

  /** What is pending for `mark`, if anything is, has been since `now` at the latest. */
  predicate PendingBy(s: State, mark: Mark, now: nat) {
    s.pending.Some? && s.pending.value.0 == mark ==> s.pending.value.1 <= now
  }

  /**
   A change that stays is reloaded: no look that counts, the settling time or more after one that showed it, passes it over, whatever
   was pending before. The clock may go back between looks, but not behind the time at which the same change was noticed before.
   */
  lemma SettledIsReloaded(s: State, looks: seq<Look>, m: nat, n: nat, lim: Limits)
    requires m < n < |looks| && ShowsSince(s, looks, m, n, looks[n].mark, lim) && Counts(s, looks, n, lim)
    requires looks[n].mark != Run(s, looks[..n], lim).seen
    requires looks[n].now >= looks[m].now && looks[n].now - looks[m].now >= lim.debounceMs
    requires PendingBy(Run(s, looks[..m], lim), looks[n].mark, looks[m].now)
    ensures Reloads(s, looks, n, lim)
  {
    StaysPending(s, looks, m, n, looks[n].mark, lim);
  }

  lemma {:induction false} StaysPending(s: State, looks: seq<Look>, m: nat, n: nat, mark: Mark, lim: Limits)
    requires m < n <= |looks| && ShowsSince(s, looks, m, n, mark, lim)
    requires mark != Run(s, looks[..n], lim).seen && PendingBy(Run(s, looks[..m], lim), mark, looks[m].now)
    ensures var q := Run(s, looks[..n], lim).pending; q.Some? && q.value.0 == mark && q.value.1 <= looks[m].now
    ensures Run(s, looks[..n], lim).seen == Run(s, looks[..m], lim).seen
    decreases n
  {
    hide Run, ShowsSince, Poll;
    var before, l := Run(s, looks[..n - 1], lim), looks[n - 1];
    RunNext(s, looks, n - 1, lim);
    Shown(s, looks, m, n, n - 1, mark, lim);
    SeenStays(before, l, lim);
    if m < n - 1 {
      Shorter(s, looks, m, n, mark, lim);
      StaysPending(s, looks, m, n - 1, mark, lim);
      KeepsPending(before, l, mark, lim);
    } else {
      Shown(s, looks, m, n, m, mark, lim);
      StartsPending(before, l, mark, lim);
    }
  }

  lemma Shown(s: State, looks: seq<Look>, m: nat, n: nat, i: nat, mark: Mark, lim: Limits)
    requires n <= |looks| && m <= i < n && ShowsSince(s, looks, m, n, mark, lim)
    ensures (Counts(s, looks, i, lim) ==> looks[i].mark == mark) && !Reloads(s, looks, i, lim) && Counts(s, looks, m, lim)
  {
  }

  lemma Shorter(s: State, looks: seq<Look>, m: nat, n: nat, mark: Mark, lim: Limits)
    requires m + 1 < n <= |looks| && ShowsSince(s, looks, m, n, mark, lim)
    ensures ShowsSince(s, looks, m, n - 1, mark, lim)
  {
  }

  lemma SeenStays(s: State, l: Look, lim: Limits)
    requires !Poll(s, l, lim).1
    ensures Poll(s, l, lim).0.seen == s.seen
  {
  }

  lemma KeepsPending(s: State, l: Look, mark: Mark, lim: Limits)
    requires s.pending.Some? && s.pending.value.0 == mark != s.seen && !Poll(s, l, lim).1 && (!TooSoon(s, l, lim) ==> l.mark == mark)
    ensures Poll(s, l, lim).0.pending == s.pending
  {
  }

  lemma StartsPending(s: State, l: Look, mark: Mark, lim: Limits)
    requires PendingBy(s, mark, l.now) && l.mark == mark != s.seen && !Poll(s, l, lim).1 && !TooSoon(s, l, lim)
    ensures var q := Poll(s, l, lim).0.pending; q.Some? && q.value.0 == mark && q.value.1 <= l.now
  {
  }
}
