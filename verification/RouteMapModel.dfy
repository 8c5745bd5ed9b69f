/** The dynamic route table of the coordinator with flap damping, one elementary step at a time. */
module RouteMapModel {
  import opened Bytes
  import opened Prefixes

  const FLAP_WINDOW_SECS: nat := 600
  const FLAP_LIMIT: nat := 3

  datatype Key = Key(prefix: Prefix, node: u32)

  datatype State = State(
    entries: map<Key, string>,
    perNode: map<u32, nat>,
    flaps: map<Key, seq<nat>>,
    dampedUntil: map<Key, nat>)

  const EMPTY: State := State(map[], map[], map[], map[])

  datatype Verdict = Accepted | OutOfCoverage | OverCap | Damped | Dropped | Unknown

  datatype Result = Result(state: State, verdict: Verdict)

  predicate IsDamped(st: State, k: Key, now: nat) {
    k in st.dampedUntil && now < st.dampedUntil[k]
  }

  predicate Covered(p: Prefix, coverage: seq<Prefix>) {
    CoveredBySome(p, coverage)
  }

  function CountOf(st: State, node: u32): nat {
    if node in st.perNode then st.perNode[node] else 0
  }

  function FlapsOf(st: State, k: Key): seq<nat> {
    if k in st.flaps then st.flaps[k] else []
  }

  /** The stamps no older than the window; a stamp ahead of the clock counts as age zero. */
  function Recent(ts: seq<nat>, now: nat): seq<nat> {
    if ts == [] then []
    else
      var front, last := Recent(ts[..|ts| - 1], now), ts[|ts| - 1];
      if now - last <= FLAP_WINDOW_SECS then front + [last] else front
  }

  function Flipped(st: State, k: Key, now: nat): seq<nat> {
    Recent(FlapsOf(st, k), now) + [now]
  }

  /** One announced prefix. */
  function AnnounceStep(st: State, k: Key, hop: string, coverage: seq<Prefix>, cap: nat, now: nat): Result {
    if IsDamped(st, k, now) then Result(st, Damped)
    else if !Covered(k.prefix, coverage) then Result(st, OutOfCoverage)
    else if k in st.entries then Result(st.(entries := st.entries[k := hop]), Accepted)
    else if CountOf(st, k.node) >= cap then Result(st, OverCap)
    else
      var ts := Flipped(st, k, now);
      var st' := st.(flaps := st.flaps[k := ts]);
      if |ts| >= FLAP_LIMIT then
        Result(st'.(dampedUntil := st.dampedUntil[k := now + FLAP_WINDOW_SECS]), Damped)
      else
        Result(st'.(entries := st.entries[k := hop], perNode := st.perNode[k.node := CountOf(st, k.node) + 1]),
            Accepted)
  }

  function Decremented(st: State, node: u32): map<u32, nat> {
    if node in st.perNode then st.perNode[node := if st.perNode[node] == 0 then 0 else st.perNode[node] - 1]
        else st.perNode
  }

  /** One withdrawn prefix: it leaves the table even when this flip starts the damping. */
  function WithdrawStep(st: State, k: Key, now: nat): Result {
    if IsDamped(st, k, now) then Result(st, Damped)
    else if k !in st.entries then Result(st, Unknown)
    else
      var ts := Flipped(st, k, now);
      var damped := if |ts| >= FLAP_LIMIT then st.dampedUntil[k := now + FLAP_WINDOW_SECS] else st.dampedUntil;
      Result(State(st.entries - {k}, Decremented(st, k.node), st.flaps[k := ts], damped), Dropped)
  }

  predicate Knows(st: State, node: u32) {
    exists k :: k in st.entries && k.node == node
  }

  /** Everything of a node goes with its history, but only when the table holds something of it. */
  function NodeStep(st: State, node: u32): State {
    if !Knows(st, node) then st
    else State(
        map k | k in st.entries && k.node != node :: st.entries[k],
        st.perNode - {node},
        map k | k in st.flaps && k.node != node :: st.flaps[k],
        map k | k in st.dampedUntil && k.node != node :: st.dampedUntil[k])
  }

  // ----- runs -----

  /** A sweep takes no clock; its time is when it happened. */
  datatype Step =
    | Announce(key: Key, hop: string, coverage: seq<Prefix>, cap: nat, now: nat)
    | Withdraw(key: Key, now: nat)
    | NodeGone(node: u32, now: nat)

  function Apply(st: State, s: Step): State {
    match s
    case Announce(k, hop, coverage, cap, now) => AnnounceStep(st, k, hop, coverage, cap, now).state
    case Withdraw(k, now) => WithdrawStep(st, k, now).state
    case NodeGone(node, _) => NodeStep(st, node)
  }

  function RunFrom(st: State, steps: seq<Step>): State {
    if steps == [] then st else Apply(RunFrom(st, steps[..|steps| - 1]), steps[|steps| - 1])
  }

  predicate Moved(before: State, after: State, k: Key) {
    (k in before.entries) != (k in after.entries)
  }

  /** The times at which a key entered or left the table since its node was last swept. */
  function History(steps: seq<Step>, k: Key): seq<nat> {
    if steps == [] then []
    else
      var front, last := steps[..|steps| - 1], steps[|steps| - 1];
      var before := RunFrom(EMPTY, front);
      if last.NodeGone? then (if last.node == k.node && Knows(before, last.node) then [] else History(front, k))
      else if Moved(before, Apply(before, last), k) then History(front, k) + [last.now]
      else History(front, k)
  }

  /** The time of the last step. */
  function Clock(steps: seq<Step>): nat {
    if steps == [] then 0 else steps[|steps| - 1].now
  }

  /** The clock never runs backwards. */
  predicate Monotone(steps: seq<Step>) {
    steps == [] ||
    (var front, last := steps[..|steps| - 1], steps[|steps| - 1];
     Monotone(front) && Clock(front) <= last.now)
  }

  // ----- counting time stamps -----

  function CountGe(ts: seq<nat>, x: int): nat {
    if ts == [] then 0 else CountGe(ts[..|ts| - 1], x) + if ts[|ts| - 1] >= x then 1 else 0
  }

  function CountIn(ts: seq<nat>, lo: int, hi: int): nat {
    if ts == [] then 0 else CountIn(ts[..|ts| - 1], lo, hi) + if lo <= ts[|ts| - 1] <= hi then 1 else 0
  }

  lemma {:induction false} CountInGe(ts: seq<nat>, lo: int, hi: int)
    ensures CountIn(ts, lo, hi) <= CountGe(ts, lo) <= |ts|
  {
    if ts != [] { CountInGe(ts[..|ts| - 1], lo, hi); }
  }

  lemma CountSnoc(ts: seq<nat>, t: nat, lo: int, hi: int)
    ensures CountGe(ts + [t], lo) == CountGe(ts, lo) + if t >= lo then 1 else 0
    ensures CountIn(ts + [t], lo, hi) == CountIn(ts, lo, hi) + if lo <= t <= hi then 1 else 0
  {
    assert (ts + [t])[..|ts|] == ts;
  }

  lemma {:induction false} CountMonotone(ts: seq<nat>, lo: int, lo': int)
    requires lo' <= lo
    ensures CountGe(ts, lo) <= CountGe(ts, lo')
  {
    if ts != [] { CountMonotone(ts[..|ts| - 1], lo, lo'); }
  }

  lemma {:induction false} CountNone(ts: seq<nat>, lo: int, clock: nat)
    requires AllBy(ts, clock) && lo > clock
    ensures CountGe(ts, lo) == 0
  {
    if ts != [] { CountNone(ts[..|ts| - 1], lo, clock); }
  }

  /** Dropping old stamps does not change the count inside the window. */
  lemma {:induction false} CountRecent(ts: seq<nat>, now: nat, lo: int)
    requires lo + FLAP_WINDOW_SECS >= now
    ensures CountGe(Recent(ts, now), lo) == CountGe(ts, lo)
  {
    if ts != [] {
      CountRecent(ts[..|ts| - 1], now, lo);
      CountSnoc(Recent(ts[..|ts| - 1], now), ts[|ts| - 1], lo, lo);
    }
  }

  lemma {:induction false} RecentShorter(ts: seq<nat>, now: nat)
    ensures |Recent(ts, now)| <= |ts|
    ensures forall t :: t in Recent(ts, now) ==> t in ts
  {
    if ts != [] { RecentShorter(ts[..|ts| - 1], now); }
  }

  predicate AllBy(ts: seq<nat>, clock: nat) {
    forall i :: 0 <= i < |ts| ==> ts[i] <= clock
  }

  // ----- the invariant of one key -----

  function InWindow(h: seq<nat>, lo: int): nat {
    CountIn(h, lo, lo + FLAP_WINDOW_SECS)
  }

  /** No window of the damping length holds more transitions than the limit. */
  ghost predicate RateOk(h: seq<nat>) {
    forall lo: int :: InWindow(h, lo) <= FLAP_LIMIT
  }

  /** Every recent transition has its stamp. */
  ghost predicate Stamped(h: seq<nat>, ts: seq<nat>, clock: nat) {
    forall x: int :: x + FLAP_WINDOW_SECS >= clock ==> CountGe(h, x) <= CountGe(ts, x)
  }

  ghost predicate KeyOk(st: State, h: seq<nat>, k: Key, clock: nat) {
    && AllBy(h, clock) && AllBy(FlapsOf(st, k), clock)
    && Stamped(h, FlapsOf(st, k), clock)
    && RateOk(h)
    && (k in st.entries ==> |FlapsOf(st, k)| < FLAP_LIMIT)
    && (k in st.entries && k in st.dampedUntil ==> st.dampedUntil[k] <= clock)
  }

  lemma StampedLater(h: seq<nat>, ts: seq<nat>, clock: nat, now: nat)
    requires Stamped(h, ts, clock) && clock <= now
    ensures Stamped(h, ts, now)
  {}

  /** A flip that is no transition only adds a stamp. */
  lemma StampOnly(h: seq<nat>, ts: seq<nat>, now: nat)
    requires Stamped(h, ts, now)
    ensures Stamped(h, Recent(ts, now) + [now], now)
  {
    var ts' := Recent(ts, now) + [now];
    forall x: int | x + FLAP_WINDOW_SECS >= now ensures CountGe(h, x) <= CountGe(ts', x) {
      CountRecent(ts, now, x);
      CountSnoc(Recent(ts, now), now, x, x);
    }
  }

  lemma StampBoth(h: seq<nat>, ts: seq<nat>, now: nat)
    requires Stamped(h, ts, now)
    ensures Stamped(h + [now], Recent(ts, now) + [now], now)
  {
    var h', ts' := h + [now], Recent(ts, now) + [now];
    forall x: int | x + FLAP_WINDOW_SECS >= now ensures CountGe(h', x) <= CountGe(ts', x) {
      CountRecent(ts, now, x);
      CountSnoc(Recent(ts, now), now, x, x);
      CountSnoc(h, now, x, x);
    }
  }

  /** A transition backed by at most three recent stamps keeps the rate. */
  lemma RateKept(h: seq<nat>, ts': seq<nat>, now: nat)
    requires RateOk(h) && Stamped(h + [now], ts', now) && |ts'| <= FLAP_LIMIT
    ensures RateOk(h + [now])
  {
    forall lo: int ensures InWindow(h + [now], lo) <= FLAP_LIMIT {
      CountSnoc(h, now, lo, lo + FLAP_WINDOW_SECS);
      if lo <= now <= lo + FLAP_WINDOW_SECS {
        CountInGe(h + [now], lo, lo + FLAP_WINDOW_SECS);
        CountInGe(ts', lo, lo);
      } else {
        assert InWindow(h, lo) <= FLAP_LIMIT;
      }
    }
  }

  lemma FlippedBy(st: State, k: Key, clock: nat, now: nat)
    requires AllBy(FlapsOf(st, k), clock) && clock <= now
    ensures AllBy(Flipped(st, k, now), now) && |Flipped(st, k, now)| <= |FlapsOf(st, k)| + 1
  {
    var ts := FlapsOf(st, k);
    RecentShorter(ts, now);
    forall i | 0 <= i < |Flipped(st, k, now)| ensures Flipped(st, k, now)[i] <= now {
      if i < |Recent(ts, now)| { assert Recent(ts, now)[i] in ts; }
    }
  }

  lemma AnnounceKey(st: State, h: seq<nat>, k: Key, clock: nat, hop: string, coverage: seq<Prefix>, cap: nat, now: nat)
    requires KeyOk(st, h, k, clock) && clock <= now
    ensures var st' := AnnounceStep(st, k, hop, coverage, cap, now).state;
            KeyOk(st', if Moved(st, st', k) then h + [now] else h, k, now)
  {
    var st' := AnnounceStep(st, k, hop, coverage, cap, now).state;
    var ts := FlapsOf(st, k);
    StampedLater(h, ts, clock, now);
    if k !in st.entries && FlapsOf(st', k) == Flipped(st, k, now) {
      FlippedBy(st, k, clock, now);
      StampOnly(h, ts, now);
      if k in st'.entries {
        StampBoth(h, ts, now);
        RateKept(h, Flipped(st, k, now), now);
      }
    }
  }

  lemma WithdrawKey(st: State, h: seq<nat>, k: Key, clock: nat, now: nat)
    requires KeyOk(st, h, k, clock) && clock <= now
    ensures var st' := WithdrawStep(st, k, now).state;
            KeyOk(st', if Moved(st, st', k) then h + [now] else h, k, now)
  {
    StampedLater(h, FlapsOf(st, k), clock, now);
    if k in st.entries && !IsDamped(st, k, now) {
      FlippedBy(st, k, clock, now);
      StampBoth(h, FlapsOf(st, k), now);
      RateKept(h, Flipped(st, k, now), now);
    }
  }

  /** A step on another key leaves this one's stamps and presence alone. */
  lemma OtherKey(st: State, st': State, h: seq<nat>, k: Key, clock: nat, now: nat)
    requires KeyOk(st, h, k, clock) && clock <= now
    requires FlapsOf(st', k) == FlapsOf(st, k) && !Moved(st, st', k)
    requires k in st'.dampedUntil ==> k in st.dampedUntil && st'.dampedUntil[k] == st.dampedUntil[k]
    ensures KeyOk(st', h, k, now)
  {
    StampedLater(h, FlapsOf(st, k), clock, now);
  }

  lemma FreshKey(st: State, k: Key, clock: nat)
    requires k !in st.entries && FlapsOf(st, k) == []
    ensures KeyOk(st, [], k, clock)
  {}

  /**
   * Over every run with a nondecreasing clock, since its node was last swept a key moves at most three times in any
   * window.
   */
  lemma {:induction false} KeyRun(steps: seq<Step>, k: Key)
    requires Monotone(steps)
    ensures KeyOk(RunFrom(EMPTY, steps), History(steps, k), k, Clock(steps))
  {
    if steps == [] {
      FreshKey(EMPTY, k, 0);
    } else {
      var front, last := steps[..|steps| - 1], steps[|steps| - 1];
      KeyRun(front, k);
      KeyStep(RunFrom(EMPTY, front), History(front, k), k, Clock(front), last);
    }
  }

  function HistoryAfter(st: State, h: seq<nat>, k: Key, s: Step): seq<nat> {
    if s.NodeGone? then (if s.node == k.node && Knows(st, s.node) then [] else h)
    else if Moved(st, Apply(st, s), k) then h + [s.now]
    else h
  }

  lemma KeyStep(st: State, h: seq<nat>, k: Key, clock: nat, s: Step)
    requires KeyOk(st, h, k, clock) && clock <= s.now
    ensures KeyOk(Apply(st, s), HistoryAfter(st, h, k, s), k, s.now)
  {
    if s.NodeGone? {
      NodeKey(st, h, k, clock, s.node, s.now);
    } else if s.key != k {
      OtherKept(st, k, s);
      OtherKey(st, Apply(st, s), h, k, clock, s.now);
    } else if s.Announce? {
      AnnounceKey(st, h, k, clock, s.hop, s.coverage, s.cap, s.now);
    } else {
      WithdrawKey(st, h, k, clock, s.now);
    }
  }

  lemma OtherKept(st: State, k: Key, s: Step)
    requires !s.NodeGone? && s.key != k
    ensures var st' := Apply(st, s);
            && FlapsOf(st', k) == FlapsOf(st, k) && !Moved(st, st', k)
            && (k in st'.dampedUntil ==> k in st.dampedUntil && st'.dampedUntil[k] == st.dampedUntil[k])
  {}

  lemma NodeKey(st: State, h: seq<nat>, k: Key, clock: nat, node: u32, now: nat)
    requires KeyOk(st, h, k, clock) && clock <= now
    ensures KeyOk(NodeStep(st, node), if node == k.node && Knows(st, node) then [] else h, k, now)
  {
    if node == k.node && Knows(st, node) {
      FreshKey(NodeStep(st, node), k, now);
    } else {
      OtherKey(st, NodeStep(st, node), h, k, clock, now);
    }
  }

  /**
   * The rate bound between sweeps: for every run under a clock that never runs backwards, every key and every window of
   * at most the damping length.
   */
  lemma RateBound(steps: seq<Step>, k: Key, lo: int, hi: int)
    requires Monotone(steps) && hi <= lo + FLAP_WINDOW_SECS
    ensures CountIn(History(steps, k), lo, hi) <= FLAP_LIMIT
  {
    KeyRun(steps, k);
    assert InWindow(History(steps, k), lo) <= FLAP_LIMIT;
    CountInWider(History(steps, k), lo, hi, lo + FLAP_WINDOW_SECS);
  }

  lemma {:induction false} CountInWider(ts: seq<nat>, lo: int, hi: int, hi': int)
    requires hi <= hi'
    ensures CountIn(ts, lo, hi) <= CountIn(ts, lo, hi')
  {
    if ts != [] { CountInWider(ts[..|ts| - 1], lo, hi, hi'); }
  }

  /** A key inside its damping period is not in the table. */
  lemma DampedAbsent(steps: seq<Step>, k: Key, now: nat)
    requires Monotone(steps) && Clock(steps) <= now && IsDamped(RunFrom(EMPTY, steps), k, now)
    ensures k !in RunFrom(EMPTY, steps).entries
  {
    KeyRun(steps, k);
  }

  // ----- the counters -----

  function KeysOf(st: State, node: u32): set<Key> {
    set k | k in st.entries && k.node == node
  }

  lemma KeysAdded(st: State, st': State, k: Key, n: u32)
    requires st'.entries.Keys == st.entries.Keys + {k}
    ensures |KeysOf(st', n)| == |KeysOf(st, n)| + if k !in st.entries && n == k.node then 1 else 0
  {
    if n == k.node && k !in st.entries {
      assert k !in KeysOf(st, n);
      assert KeysOf(st', n) == KeysOf(st, n) + {k};
    } else {
      assert KeysOf(st', n) == KeysOf(st, n);
    }
  }

  lemma CountsAnnounce(st: State, k: Key, hop: string, coverage: seq<Prefix>, cap: nat, now: nat, n: u32)
    requires CountOf(st, n) == |KeysOf(st, n)|
    ensures var st' := AnnounceStep(st, k, hop, coverage, cap, now).state; CountOf(st', n) == |KeysOf(st', n)|
  {
    var st' := AnnounceStep(st, k, hop, coverage, cap, now).state;
    if st'.entries == st.entries {
      assert KeysOf(st', n) == KeysOf(st, n);
    } else {
      KeysAdded(st, st', k, n);
    }
  }

  lemma CountsWithdraw(st: State, k: Key, now: nat, n: u32)
    requires CountOf(st, n) == |KeysOf(st, n)|
    ensures var st' := WithdrawStep(st, k, now).state; CountOf(st', n) == |KeysOf(st', n)|
  {
    var st' := WithdrawStep(st, k, now).state;
    if k in st.entries && k !in st'.entries && n == k.node {
      assert k in KeysOf(st, n);
      assert KeysOf(st', n) == KeysOf(st, n) - {k};
    } else {
      assert KeysOf(st', n) == KeysOf(st, n);
    }
  }

  lemma CountsNode(st: State, node: u32, n: u32)
    requires CountOf(st, n) == |KeysOf(st, n)|
    ensures var st' := NodeStep(st, node); CountOf(st', n) == |KeysOf(st', n)|
  {
    var st' := NodeStep(st, node);
    if node == n && Knows(st, node) { assert KeysOf(st', n) == {}; } else { assert KeysOf(st', n) == KeysOf(st, n); }
  }

  lemma CountsStep(st: State, s: Step, n: u32)
    requires CountOf(st, n) == |KeysOf(st, n)|
    ensures CountOf(Apply(st, s), n) == |KeysOf(Apply(st, s), n)|
  {
    match s
    case Announce(k, hop, coverage, cap, now) => CountsAnnounce(st, k, hop, coverage, cap, now, n);
    case Withdraw(k, now) => CountsWithdraw(st, k, now, n);
    case NodeGone(node, _) => CountsNode(st, node, n);
  }

  /** In every run the counter of a node is the number of its routes in the table. */
  lemma {:induction false} CountsExact(steps: seq<Step>, n: u32)
    ensures CountOf(RunFrom(EMPTY, steps), n) == |KeysOf(RunFrom(EMPTY, steps), n)|
  {
    if steps == [] {
      assert KeysOf(EMPTY, n) == {};
    } else {
      CountsExact(steps[..|steps| - 1], n);
      CountsStep(RunFrom(EMPTY, steps[..|steps| - 1]), steps[|steps| - 1], n);
    }
  }

  /** The coverage in use: every block of it is in the set. */
  predicate Offers(s: Step, cap: nat, blocks: set<Prefix>) {
    s.Announce? ==> s.cap <= cap && forall b :: b in s.coverage ==> b in blocks
  }

  ghost predicate Inside(p: Prefix, blocks: set<Prefix>) {
    exists b :: b in blocks && Includes(b, p)
  }

  lemma GuardStep(st: State, s: Step, cap: nat, blocks: set<Prefix>, k: Key)
    requires Offers(s, cap, blocks)
    requires CountOf(st, k.node) <= cap && (k in st.entries ==> Inside(k.prefix, blocks))
    ensures CountOf(Apply(st, s), k.node) <= cap && (k in Apply(st, s).entries ==> Inside(k.prefix, blocks))
  {
    if s.Announce? && Covered(s.key.prefix, s.coverage) {
      CoveredExactly(s.key.prefix, s.coverage);
      var i :| 0 <= i < |s.coverage| && Includes(s.coverage[i], s.key.prefix);
      assert s.coverage[i] in blocks;
    }
  }

  /** Routes of a node stay within the largest cap used, and every route lies in a block some step allowed. */
  lemma {:induction false} GuardsHold(steps: seq<Step>, cap: nat, blocks: set<Prefix>, k: Key)
    requires forall i :: 0 <= i < |steps| ==> Offers(steps[i], cap, blocks)
    ensures var st := RunFrom(EMPTY, steps);
            |KeysOf(st, k.node)| <= cap && (k in st.entries ==> Inside(k.prefix, blocks))
  {
    GuardRun(steps, cap, blocks, k);
    CountsExact(steps, k.node);
  }

  lemma {:induction false} GuardRun(steps: seq<Step>, cap: nat, blocks: set<Prefix>, k: Key)
    requires forall i :: 0 <= i < |steps| ==> Offers(steps[i], cap, blocks)
    ensures var st := RunFrom(EMPTY, steps);
            CountOf(st, k.node) <= cap && (k in st.entries ==> Inside(k.prefix, blocks))
  {
    if steps != [] {
      var front := steps[..|steps| - 1];
      GuardRun(front, cap, blocks, k);
      GuardStep(RunFrom(EMPTY, front), steps[|steps| - 1], cap, blocks, k);
    }
  }

  // ----- when an announcement is taken -----

  lemma {:induction false} RecentCount(ts: seq<nat>, now: nat)
    ensures |Recent(ts, now)| == CountGe(ts, now - FLAP_WINDOW_SECS)
  {
    if ts != [] { RecentCount(ts[..|ts| - 1], now); }
  }

  /** Damping strikes exactly a new route whose key flipped at least twice inside the window; a refresh never counts. */
  lemma AnnounceTaken(st: State, k: Key, hop: string, coverage: seq<Prefix>, cap: nat, now: nat)
    ensures var st' := AnnounceStep(st, k, hop, coverage, cap, now).state;
            var quiet := k in st.entries ||
                         (CountOf(st, k.node) < cap
                             && CountGe(FlapsOf(st, k), now - FLAP_WINDOW_SECS) < FLAP_LIMIT - 1);
            var inside := WithinSome(k.prefix, coverage) && !Stranded(k.prefix, coverage);
            if !IsDamped(st, k, now) && inside && quiet then st'.entries == st.entries[k := hop]
            else st'.entries == st.entries
  {
    CoveredExactly(k.prefix, coverage);
    RecentCount(FlapsOf(st, k), now);
  }

  /** The damping period starts exactly with the third flip inside the window. */
  lemma DampingStarts(st: State, k: Key, now: nat)
    requires k in st.entries && !IsDamped(st, k, now)
    ensures IsDamped(WithdrawStep(st, k, now).state, k, now) <==>
            CountGe(FlapsOf(st, k), now - FLAP_WINDOW_SECS) >= FLAP_LIMIT - 1
  {
    RecentCount(FlapsOf(st, k), now);
  }

  // ----- the bound is sharp -----

  lemma Snoc(steps: seq<Step>, s: Step, k: Key)
    ensures RunFrom(EMPTY, steps + [s]) == Apply(RunFrom(EMPTY, steps), s)
    ensures History(steps + [s], k) == HistoryAfter(RunFrom(EMPTY, steps), History(steps, k), k, s)
    ensures Clock(steps + [s]) == s.now && (Monotone(steps + [s]) <==> Monotone(steps) && Clock(steps) <= s.now)
  {
    assert (steps + [s])[..|steps|] == steps;
  }

  /** No flip of the key inside the window before a time, no damping and no route. */
  predicate Quiet(st: State, k: Key, now: nat) {
    k !in st.entries && !IsDamped(st, k, now) && CountGe(FlapsOf(st, k), now - FLAP_WINDOW_SECS) == 0
  }

  function In(st: State, k: Key, now: nat): Step {
    Announce(k, "", [k.prefix], CountOf(st, k.node) + 1, now)
  }

  lemma QuietIn(st: State, k: Key, now: nat)
    requires Quiet(st, k, now)
    ensures var st' := Apply(st, In(st, k, now));
            k in st'.entries && !IsDamped(st', k, now) && FlapsOf(st', k) == [now] && st'.dampedUntil == st.dampedUntil
  {
    ContainsItself(k.prefix);
    assert Covered(k.prefix, [k.prefix]) by { assert IsCoveredBy(k.prefix, [k.prefix][0]); }
    RecentCount(FlapsOf(st, k), now);
  }

  lemma ThenOut(st: State, k: Key, now: nat)
    requires k in st.entries && !IsDamped(st, k, now) && FlapsOf(st, k) == [now]
    ensures var st' := Apply(st, Withdraw(k, now));
            k !in st'.entries && FlapsOf(st', k) == [now, now] && st'.dampedUntil == st.dampedUntil
  {
    assert [now][..0] == [];
    assert Recent([now], now) == [now];
  }

  /** After a quiet window a key can enter and leave at once. */
  lemma TwoTransitions(steps: seq<Step>, k: Key, now: nat) returns (more: seq<Step>)
    requires Monotone(steps) && Clock(steps) <= now && Quiet(RunFrom(EMPTY, steps), k, now)
    ensures Monotone(more) && Clock(more) == now && History(more, k) == History(steps, k) + [now, now]
    ensures var st := RunFrom(EMPTY, more);
            k !in st.entries && FlapsOf(st, k) == [now, now] && st.dampedUntil == RunFrom(EMPTY, steps).dampedUntil
  {
    var st := RunFrom(EMPTY, steps);
    QuietIn(st, k, now);
    var mid := steps + [In(st, k, now)];
    Snoc(steps, In(st, k, now), k);
    ThenOut(RunFrom(EMPTY, mid), k, now);
    more := mid + [Withdraw(k, now)];
    Snoc(mid, Withdraw(k, now), k);
  }

  lemma CountPair(h: seq<nat>, t: nat, lo: int, hi: int)
    requires lo <= t <= hi
    ensures CountIn(h + [t, t], lo, hi) == CountIn(h, lo, hi) + 2
  {
    CountSnoc(h, t, lo, hi);
    CountSnoc(h + [t], t, lo, hi);
    assert h + [t] + [t] == h + [t, t];
  }

  /** A window one second longer can hold four transitions. */
  lemma RateBoundSharp(k: Key)
    ensures exists steps :: Monotone(steps) && CountIn(History(steps, k), 0, FLAP_WINDOW_SECS + 1) > FLAP_LIMIT
  {
    var late := FLAP_WINDOW_SECS + 1;
    var first := TwoTransitions([], k, 0);
    CountPair([], 0, 0, late);
    CountNone([0, 0], 1, 0);
    var both := TwoTransitions(first, k, late);
    CountPair(History(first, k), late, 0, late);
  }

  lemma ContainsItself(p: Prefix)
    ensures IsCoveredBy(p, p)
  {
    ContainsPartialOrder(p, p, p);
  }

  // ----- what one call changes -----

  /** Whether some key entered or left the table on the way. */
  predicate Transitions(st: State, steps: seq<Step>) {
    steps != [] &&
    (var front, last := steps[..|steps| - 1], steps[|steps| - 1];
     Transitions(st, front) || RunFrom(st, front).entries.Keys != RunFrom(st, steps).entries.Keys)
  }

  lemma {:induction false} NoTransitionsSameKeys(st: State, steps: seq<Step>)
    requires !Transitions(st, steps)
    ensures RunFrom(st, steps).entries.Keys == st.entries.Keys
  {
    if steps != [] { NoTransitionsSameKeys(st, steps[..|steps| - 1]); }
  }
}
