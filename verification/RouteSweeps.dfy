/**
 * Every entry and exit of a route, those by a sweep of its node included: the rate bound holds up to two more per
 * sweep.
 */
module RouteSweeps {
  import opened Prefixes
  import opened RouteMapModel

  /** The times at which a key entered or left the table, for whatever reason. */
  function Presence(steps: seq<Step>, k: Key): seq<nat> {
    if steps == [] then []
    else
      var front, last := steps[..|steps| - 1], steps[|steps| - 1];
      var before := RunFrom(EMPTY, front);
      if Moved(before, Apply(before, last), k) then Presence(front, k) + [last.now] else Presence(front, k)
  }

  /** A sweep of the key's node that finds something. */
  predicate Sweeps(st: State, s: Step, k: Key) {
    s.NodeGone? && s.node == k.node && Knows(st, s.node)
  }

  /** How many sweeps of the key's node fall in a window. */
  function SweepsIn(steps: seq<Step>, k: Key, lo: int, hi: int): nat {
    if steps == [] then 0
    else
      var front, last := steps[..|steps| - 1], steps[|steps| - 1];
      SweepsIn(front, k, lo, hi) + if Sweeps(RunFrom(EMPTY, front), last, k) && lo <= last.now <= hi then 1 else 0
  }

  function Present(st: State, k: Key): nat {
    if k in st.entries then 1 else 0
  }

  // ----- counting -----

  lemma {:induction false} CountUpTo(ts: seq<nat>, lo: int, hi: int, clock: nat)
    requires AllBy(ts, clock) && clock <= hi
    ensures CountIn(ts, lo, hi) == CountGe(ts, lo)
  {
    if ts != [] { CountUpTo(ts[..|ts| - 1], lo, hi, clock); }
  }

  lemma {:induction false} CountTooEarly(ts: seq<nat>, lo: int, hi: int, clock: nat)
    requires AllBy(ts, clock) && clock < lo
    ensures CountIn(ts, lo, hi) == 0
  {
    if ts != [] { CountTooEarly(ts[..|ts| - 1], lo, hi, clock); }
  }

  // ----- one segment between sweeps -----

  /** A route is in the table exactly after an odd number of moves since the last sweep. */
  ghost predicate Parity(st: State, h: seq<nat>, k: Key) {
    k in st.entries <==> |h| % 2 == 1
  }

  /**
   * Moves in the window since the last sweep, and the exit a sweep would add: at most three, and two when all are in
   * it.
   */
  lemma SegmentBound(st: State, h: seq<nat>, k: Key, clock: nat, lo: int, hi: int)
    requires KeyOk(st, h, k, clock) && Parity(st, h, k) && clock <= hi <= lo + FLAP_WINDOW_SECS
    ensures CountIn(h, lo, hi) + Present(st, k) <= FLAP_LIMIT
    ensures CountGe(h, lo) == |h| ==> CountIn(h, lo, hi) + Present(st, k) <= 2
  {
    CountUpTo(h, lo, hi, clock);
    assert InWindow(h, lo) <= FLAP_LIMIT;
    CountUpTo(h, lo, lo + FLAP_WINDOW_SECS, clock);
    if k in st.entries {
      assert CountGe(h, lo) <= CountGe(FlapsOf(st, k), lo);
      CountInGe(FlapsOf(st, k), lo, lo);
    }
  }

  // ----- whole runs -----

  /** What was counted before the last sweep, against the number of sweeps in the window so far. */
  ghost predicate Tally(p: seq<nat>, h: seq<nat>, m: nat, clock: nat, lo: int, hi: int) {
    && AllBy(p, clock) && CountIn(h, lo, hi) <= CountIn(p, lo, hi)
    && (m == 0 ==> CountIn(p, lo, hi) == CountIn(h, lo, hi))
    && (m > 0 ==> CountIn(p, lo, hi) <= CountIn(h, lo, hi) + FLAP_LIMIT + 2 * (m - 1))
    && (m > 0 ==> CountGe(h, lo) == |h| && lo <= clock)
  }

  lemma TallySweep(st: State, p: seq<nat>, h: seq<nat>, k: Key, m: nat, clock: nat, now: nat, lo: int, hi: int)
    requires KeyOk(st, h, k, clock) && Parity(st, h, k) && Tally(p, h, m, clock, lo, hi)
    requires clock <= now <= hi <= lo + FLAP_WINDOW_SECS
    ensures Tally(if k in st.entries then p + [now] else p, [], if lo <= now then m + 1 else m, now, lo, hi)
  {
    SegmentBound(st, h, k, clock, lo, hi);
    CountSnoc(p, now, lo, hi);
    if now < lo {
      CountTooEarly(p, lo, hi, clock);
    }
  }

  lemma TallyMove(p: seq<nat>, h: seq<nat>, m: nat, clock: nat, now: nat, lo: int, hi: int)
    requires Tally(p, h, m, clock, lo, hi) && clock <= now
    ensures Tally(p + [now], h + [now], m, now, lo, hi)
  {
    CountSnoc(p, now, lo, hi);
    CountSnoc(h, now, lo, hi);
  }

  lemma SweepMoves(st: State, s: Step, k: Key)
    requires s.NodeGone?
    ensures Moved(st, Apply(st, s), k) <==> Sweeps(st, s, k) && k in st.entries
    ensures Sweeps(st, s, k) ==> k !in Apply(st, s).entries
  {}

  lemma TallyStill(p: seq<nat>, h: seq<nat>, m: nat, clock: nat, now: nat, lo: int, hi: int)
    requires Tally(p, h, m, clock, lo, hi) && clock <= now
    ensures Tally(p, h, m, now, lo, hi)
  {}

  /** The two histories and the number of sweeps after one more step. */
  ghost predicate NextTally(st: State, st': State, p: seq<nat>, h: seq<nat>, k: Key, m: nat, now: nat, swept: bool,
      lo: int, hi: int) {
    var h' := if swept then [] else if Moved(st, st', k) then h + [now] else h;
    && Parity(st', h', k)
    && Tally(if Moved(st, st', k) then p + [now] else p, h', if swept && lo <= now then m + 1 else m, now, lo, hi)
  }

  lemma TallySwept(st: State, st': State, p: seq<nat>, h: seq<nat>, k: Key, m: nat, clock: nat, now: nat, lo: int,
      hi: int)
    requires KeyOk(st, h, k, clock) && Parity(st, h, k) && Tally(p, h, m, clock, lo, hi)
    requires clock <= now <= hi <= lo + FLAP_WINDOW_SECS && k !in st'.entries
    ensures NextTally(st, st', p, h, k, m, now, true, lo, hi)
  {
    TallySweep(st, p, h, k, m, clock, now, lo, hi);
  }

  lemma TallyKept(st: State, st': State, p: seq<nat>, h: seq<nat>, k: Key, m: nat, clock: nat, now: nat, lo: int,
      hi: int)
    requires Parity(st, h, k) && Tally(p, h, m, clock, lo, hi) && clock <= now <= hi
    ensures NextTally(st, st', p, h, k, m, now, false, lo, hi)
  {
    if Moved(st, st', k) {
      TallyMove(p, h, m, clock, now, lo, hi);
    } else {
      TallyStill(p, h, m, clock, now, lo, hi);
    }
  }

  /** The history since the last sweep, after one more step. */
  lemma HistoryNext(st: State, h: seq<nat>, k: Key, s: Step)
    ensures HistoryAfter(st, h, k, s) ==
            if Sweeps(st, s, k) then [] else if Moved(st, Apply(st, s), k) then h + [s.now] else h
    ensures Sweeps(st, s, k) ==> k !in Apply(st, s).entries
  {
    if s.NodeGone? { SweepMoves(st, s, k); }
  }

  lemma {:induction false} TallyRun(steps: seq<Step>, k: Key, lo: int, hi: int)
    requires Monotone(steps) && Clock(steps) <= hi <= lo + FLAP_WINDOW_SECS
    ensures Parity(RunFrom(EMPTY, steps), History(steps, k), k)
    ensures Tally(Presence(steps, k), History(steps, k), SweepsIn(steps, k, lo, hi), Clock(steps), lo, hi)
  {
    if steps != [] {
      var front, last := steps[..|steps| - 1], steps[|steps| - 1];
      TallyRun(front, k, lo, hi);
      KeyRun(front, k);
      var st := RunFrom(EMPTY, front);
      HistoryNext(st, History(front, k), k, last);
      var p, h, m := Presence(front, k), History(front, k), SweepsIn(front, k, lo, hi);
      if Sweeps(st, last, k) {
        TallySwept(st, RunFrom(EMPTY, steps), p, h, k, m, Clock(front), last.now, lo, hi);
      } else {
        TallyKept(st, RunFrom(EMPTY, steps), p, h, k, m, Clock(front), last.now, lo, hi);
      }
    }
  }

  /**
   * In any window of the damping length a key moves at most three times, and two more for each sweep of its node in it.
   */
  lemma {:induction false} PresenceBound(steps: seq<Step>, k: Key, lo: int, hi: int)
    requires Monotone(steps) && hi <= lo + FLAP_WINDOW_SECS
    ensures CountIn(Presence(steps, k), lo, hi) <= FLAP_LIMIT + 2 * SweepsIn(steps, k, lo, hi)
  {
    if steps == [] {
      assert Presence(steps, k) == [];
    } else if Clock(steps) <= hi {
      TallyRun(steps, k, lo, hi);
      KeyRun(steps, k);
      SegmentBound(RunFrom(EMPTY, steps), History(steps, k), k, Clock(steps), lo, hi);
    } else {
      PresenceBound(steps[..|steps| - 1], k, lo, hi);
      CountSnoc(Presence(steps[..|steps| - 1], k), Clock(steps), lo, hi);
    }
  }

  // ----- the bound is met, whatever the number of sweeps -----

  lemma PresenceSnoc(steps: seq<Step>, s: Step, k: Key, lo: int, hi: int)
    ensures RunFrom(EMPTY, steps + [s]) == Apply(RunFrom(EMPTY, steps), s)
    ensures var st := RunFrom(EMPTY, steps);
            && Presence(steps + [s], k) == Presence(steps, k) + (if Moved(st, Apply(st, s), k) then [s.now] else [])
            && SweepsIn(steps + [s], k, lo, hi) == SweepsIn(steps, k, lo, hi) + if Sweeps(st, s, k)
                && lo <= s.now <= hi then 1 else 0
    ensures Clock(steps + [s]) == s.now && (Monotone(steps + [s]) <==> Monotone(steps) && Clock(steps) <= s.now)
  {
    assert (steps + [s])[..|steps|] == steps;
  }

  const LATE: nat := FLAP_WINDOW_SECS + 1

  /** A run so far: so many moves and sweeps at the late second. */
  ghost predicate Done(steps: seq<Step>, k: Key, moves: nat, sweeps: nat) {
    && Monotone(steps) && Clock(steps) <= LATE
    && CountIn(Presence(steps, k), LATE, LATE) == moves && SweepsIn(steps, k, LATE, LATE) == sweeps
  }

  lemma Onwards(steps: seq<Step>, s: Step, k: Key, moves: nat, sweeps: nat)
    requires Done(steps, k, moves, sweeps) && s.now == LATE
    ensures var st := RunFrom(EMPTY, steps);
            && RunFrom(EMPTY, steps + [s]) == Apply(st, s)
            && Done(steps + [s], k, moves + (if Moved(st, Apply(st, s), k) then 1 else 0),
                sweeps + if Sweeps(st, s, k) then 1 else 0)
  {
    PresenceSnoc(steps, s, k, LATE, LATE);
    CountSnoc(Presence(steps, k), s.now, LATE, LATE);
    assert Presence(steps, k) + [] == Presence(steps, k);
  }

  /** In the table, with these flips and no damping. */
  ghost predicate Inside(st: State, k: Key, flips: seq<nat>) {
    k in st.entries && FlapsOf(st, k) == flips && k !in st.dampedUntil
  }

  ghost predicate Outside(st: State, k: Key, flips: seq<nat>) {
    k !in st.entries && FlapsOf(st, k) == flips && k !in st.dampedUntil
  }

  lemma GoesOut(st: State, k: Key, early: nat)
    requires Inside(st, k, [early]) && early + FLAP_WINDOW_SECS < LATE
    ensures Outside(Apply(st, Withdraw(k, LATE)), k, [LATE])
  {
    assert [early][..0] == [];
    assert Recent([early], LATE) == [];
  }

  lemma ComesIn(st: State, k: Key, flips: seq<nat>)
    requires Outside(st, k, flips) && (flips == [] || flips == [LATE])
    ensures Inside(Apply(st, In(st, k, LATE)), k, flips + [LATE])
  {
    ContainsItself(k.prefix);
    assert Covered(k.prefix, [k.prefix]) by { assert IsCoveredBy(k.prefix, [k.prefix][0]); }
    assert [LATE][..0] == [];
    assert Recent([LATE], LATE) == [LATE];
  }

  lemma SweptOut(st: State, k: Key, flips: seq<nat>, now: nat)
    requires Inside(st, k, flips)
    ensures Sweeps(st, NodeGone(k.node, now), k) && Outside(Apply(st, NodeGone(k.node, now)), k, [])
  {}

  /** Enters early; leaves and enters again late: two late moves. */
  lemma Warm(k: Key) returns (steps: seq<Step>)
    ensures Done(steps, k, 2, 0) && Inside(RunFrom(EMPTY, steps), k, [LATE, LATE])
  {
    var first := In(EMPTY, k, 0);
    QuietIn(EMPTY, k, 0);
    PresenceSnoc([], first, k, LATE, LATE);
    steps := [] + [first];
    CountSnoc([], 0, LATE, LATE);
    GoesOut(RunFrom(EMPTY, steps), k, 0);
    Onwards(steps, Withdraw(k, LATE), k, 0, 0);
    steps := steps + [Withdraw(k, LATE)];
    var st := RunFrom(EMPTY, steps);
    ComesIn(st, k, [LATE]);
    Onwards(steps, In(st, k, LATE), k, 1, 0);
    steps := steps + [In(st, k, LATE)];
  }

  /** Each sweep lets the route leave and enter once more. */
  lemma {:induction false} Busy(k: Key, m: nat) returns (steps: seq<Step>, flips: seq<nat>)
    ensures Done(steps, k, 2 + 2 * m, m) && Inside(RunFrom(EMPTY, steps), k, flips)
  {
    if m == 0 {
      steps := Warm(k);
      flips := [LATE, LATE];
    } else {
      steps, flips := Busy(k, m - 1);
      SweptOut(RunFrom(EMPTY, steps), k, flips, LATE);
      Onwards(steps, NodeGone(k.node, LATE), k, 2 * m, m - 1);
      steps := steps + [NodeGone(k.node, LATE)];
      var st := RunFrom(EMPTY, steps);
      ComesIn(st, k, []);
      Onwards(steps, In(st, k, LATE), k, 2 * m + 1, m);
      steps := steps + [In(st, k, LATE)];
      flips := [] + [LATE];
    }
  }

  /** For every number of sweeps, a run that meets the bound inside one second. */
  lemma PresenceBoundSharp(k: Key, m: nat) returns (steps: seq<Step>)
    ensures Done(steps, k, FLAP_LIMIT + 2 * m, m)
  {
    var flips;
    steps, flips := Busy(k, m);
    Onwards(steps, Withdraw(k, LATE), k, 2 + 2 * m, m);
    steps := steps + [Withdraw(k, LATE)];
  }

  function Bounce(k: Key): seq<Step> {
    var enter, sweep := Announce(k, "", [k.prefix], 1, LATE), NodeGone(k.node, LATE);
    [] + [enter] + [sweep] + [enter] + [sweep] + [enter]
  }

  /** A route announced three times with two sweeps between, in one second: five moves and no damping. */
  lemma BounceMoves(k: Key)
    ensures Done(Bounce(k), k, 5, 2) && Inside(RunFrom(EMPTY, Bounce(k)), k, [LATE])
  {
    var enter, sweep := Announce(k, "", [k.prefix], 1, LATE), NodeGone(k.node, LATE);
    var one := [] + [enter] + [sweep];
    BounceOnce([], k, 0, 0);
    BounceOnce(one, k, 2, 1);
    EntersEmpty(one + [enter] + [sweep], k, 4, 2);
    assert [] + [LATE] == [LATE];
  }

  /** Nothing of the key, and room for its node. */
  ghost predicate Gone(st: State, k: Key) {
    Outside(st, k, []) && CountOf(st, k.node) == 0
  }

  lemma EntersEmpty(steps: seq<Step>, k: Key, moves: nat, sweeps: nat)
    requires Done(steps, k, moves, sweeps) && Gone(RunFrom(EMPTY, steps), k)
    ensures var more := steps + [Announce(k, "", [k.prefix], 1, LATE)];
            Done(more, k, moves + 1, sweeps) && Inside(RunFrom(EMPTY, more), k, [] + [LATE])
  {
    var st := RunFrom(EMPTY, steps);
    assert In(st, k, LATE) == Announce(k, "", [k.prefix], 1, LATE);
    ComesIn(st, k, []);
    Onwards(steps, In(st, k, LATE), k, moves, sweeps);
  }

  lemma SweptGone(st: State, k: Key, flips: seq<nat>, now: nat)
    requires Inside(st, k, flips)
    ensures Gone(Apply(st, NodeGone(k.node, now)), k)
  {
    SweptOut(st, k, flips, now);
  }

  lemma BounceOnce(steps: seq<Step>, k: Key, moves: nat, sweeps: nat)
    requires Done(steps, k, moves, sweeps) && Gone(RunFrom(EMPTY, steps), k)
    ensures var more := steps + [Announce(k, "", [k.prefix], 1, LATE)] + [NodeGone(k.node, LATE)];
            Done(more, k, moves + 2, sweeps + 1) && Gone(RunFrom(EMPTY, more), k)
  {
    EntersEmpty(steps, k, moves, sweeps);
    var mid := steps + [Announce(k, "", [k.prefix], 1, LATE)];
    SweptOut(RunFrom(EMPTY, mid), k, [] + [LATE], LATE);
    SweptGone(RunFrom(EMPTY, mid), k, [] + [LATE], LATE);
    Onwards(mid, NodeGone(k.node, LATE), k, moves + 1, sweeps);
  }

  /** Runs with so many sweeps in a window keep to the limit there. */
  ghost predicate LimitHolds(m: nat) {
    forall steps, k, lo: int, hi: int ::
      Monotone(steps) && hi <= lo + FLAP_WINDOW_SECS && SweepsIn(steps, k, lo, hi) == m ==>
          CountIn(Presence(steps, k), lo, hi) <= FLAP_LIMIT
  }

  /** The limit holds of every entry and exit exactly when no sweep of the node falls in the window. */
  lemma LimitHoldsExactly(m: nat)
    ensures LimitHolds(m) <==> m == 0
  {
    if m == 0 {
      forall steps, k, lo: int, hi: int | Monotone(steps) && hi <= lo + FLAP_WINDOW_SECS
          && SweepsIn(steps, k, lo, hi) == m
        ensures CountIn(Presence(steps, k), lo, hi) <= FLAP_LIMIT
      {
        PresenceBound(steps, k, lo, hi);
      }
    } else {
      var k := Key(PrefixRep(0, 0, true), 0);
      var steps := PresenceBoundSharp(k, m);
      assert SweepsIn(steps, k, LATE, LATE) == m && CountIn(Presence(steps, k), LATE, LATE) > FLAP_LIMIT;
    }
  }
}
