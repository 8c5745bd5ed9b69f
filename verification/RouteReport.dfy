/**
 * What one report does to the route table, said over the report and the table before it; when the version misses a
 * change.
 */
module RouteReport {
  import opened Prefixes
  import opened RouteMapModel
  import opened RouteMap

  // ----- the report against the old table -----

  function KeyAt(s: Sync, i: nat): Key
    requires i < |s.announced|
  {
    Key(s.announced[i].0, s.node)
  }

  predicate Withdrawn(s: Sync, m: nat, k: Key)
    requires m <= |s.withdrawn|
  {
    k.node == s.node && k.prefix in s.withdrawn[..m]
  }

  predicate Open(st: State, s: Sync, k: Key) {
    !IsDamped(st, k, s.now) && Covered(k.prefix, s.coverage)
  }

  /** A new route that is announced outside damping, inside the coverage, and with fewer than two recent flips. */
  predicate Welcome(st: State, s: Sync, k: Key) {
    Open(st, s, k) && k !in st.entries && CountGe(FlapsOf(st, k), s.now - FLAP_WINDOW_SECS) < FLAP_LIMIT - 1
  }

  /** The new routes among the first announcements: each welcome one once, as long as there is room. */
  function Takes(st: State, s: Sync, n: nat): seq<Key>
    requires n <= |s.announced|
  {
    if n == 0 then []
    else
      var t, k := Takes(st, s, n - 1), KeyAt(s, n - 1);
      if Welcome(st, s, k) && k !in t && CountOf(st, s.node) + |t| < s.cap then t + [k] else t
  }

  predicate Held(st: State, s: Sync, n: nat, k: Key)
    requires n <= |s.announced|
  {
    k in st.entries || k in Takes(st, s, n)
  }

  /** The next hop of a held route: that of its last open announcement, or the old one. */
  function Hop(st: State, s: Sync, n: nat, k: Key): string
    requires n <= |s.announced|
  {
    if n == 0 then (if k in st.entries then st.entries[k] else "")
    else if KeyAt(s, n - 1) == k && Open(st, s, k) && Held(st, s, n, k) then s.announced[n - 1].1
    else Hop(st, s, n - 1, k)
  }

  // ----- announcements -----

  ghost predicate SameFlaps(st: State, a: State, k: Key, now: nat) {
    FlapsOf(a, k) == FlapsOf(st, k) && IsDamped(a, k, now) == IsDamped(st, k, now)
  }

  /** What the first announcements did to one key. */
  ghost predicate KeyAfter(st: State, s: Sync, n: nat, a: State, k: Key)
    requires n <= |s.announced|
  {
    && (k in a.entries <==> Held(st, s, n, k))
    && (k in a.entries ==> a.entries[k] == Hop(st, s, n, k) && IsDamped(a, k, s.now) == IsDamped(st, k, s.now))
    && (k !in a.entries ==> SameFlaps(st, a, k, s.now) || (IsDamped(a, k, s.now) && !Welcome(st, s, k)))
  }

  /** One more announcement of the key, the counter, and whether it brought a route. */
  ghost predicate OneMore(st: State, s: Sync, n: nat, a: State, b: State, k: Key)
    requires 0 < n <= |s.announced|
  {
    && KeyAfter(st, s, n, b, k) && CountOf(b, s.node) == CountOf(st, s.node) + |Takes(st, s, n)|
    && (k in b.entries && k !in a.entries <==> Takes(st, s, n) != Takes(st, s, n - 1))
  }

  ghost predicate Before(st: State, s: Sync, n: nat, a: State, k: Key) {
    && 0 < n <= |s.announced| && KeyAfter(st, s, n - 1, a, k) && k == KeyAt(s, n - 1)
    && CountOf(a, s.node) == CountOf(st, s.node) + |Takes(st, s, n - 1)|
  }

  lemma AnnounceRefused(st: State, s: Sync, n: nat, a: State, k: Key)
    requires Before(st, s, n, a, k) && (!Open(a, s, k) || (k !in a.entries && CountOf(a, s.node) >= s.cap))
    ensures OneMore(st, s, n, a, a, k)
  {}

  lemma AnnounceRefresh(st: State, s: Sync, n: nat, a: State, k: Key)
    requires Before(st, s, n, a, k) && Open(a, s, k) && k in a.entries
    ensures OneMore(st, s, n, a, a.(entries := a.entries[k := s.announced[n - 1].1]), k)
  {}

  lemma AnnounceNew(st: State, s: Sync, n: nat, a: State, k: Key)
    requires Before(st, s, n, a, k) && Open(a, s, k) && k !in a.entries && CountOf(a, s.node) < s.cap
    ensures OneMore(st, s, n, a, Apply(a, AnnounceAt(s, n - 1)), k)
  {
    RecentCount(FlapsOf(a, k), s.now);
    assert SameFlaps(st, a, k, s.now);
  }

  lemma AnnounceOne(st: State, s: Sync, n: nat, a: State, k: Key)
    requires Before(st, s, n, a, k)
    ensures OneMore(st, s, n, a, Apply(a, AnnounceAt(s, n - 1)), k)
  {
    if !Open(a, s, k) || (k !in a.entries && CountOf(a, s.node) >= s.cap) {
      AnnounceRefused(st, s, n, a, k);
    } else if k in a.entries {
      AnnounceRefresh(st, s, n, a, k);
    } else {
      AnnounceNew(st, s, n, a, k);
    }
  }

  lemma AnnounceOther(st: State, s: Sync, n: nat, a: State, k: Key)
    requires 0 < n <= |s.announced| && KeyAfter(st, s, n - 1, a, k) && k != KeyAt(s, n - 1)
    ensures KeyAfter(st, s, n, Apply(a, AnnounceAt(s, n - 1)), k)
  {
    OtherKept(a, k, AnnounceAt(s, n - 1));
  }

  lemma RunSnoc(st: State, steps: seq<Step>, x: Step)
    ensures RunFrom(st, steps + [x]) == Apply(RunFrom(st, steps), x)
    ensures Transitions(st, steps + [x]) <==>
            Transitions(st, steps) || RunFrom(st, steps).entries.Keys != Apply(RunFrom(st, steps), x).entries.Keys
  {
    assert (steps + [x])[..|steps|] == steps;
  }

  lemma TransitionsSnoc(st: State, steps: seq<Step>, x: Step, a: State, b: State)
    requires RunFrom(st, steps) == a && Apply(a, x) == b
    ensures Transitions(st, steps + [x]) <==> Transitions(st, steps) || a.entries.Keys != b.entries.Keys
  {
    RunSnoc(st, steps, x);
  }

  lemma AnnounceKeys(a: State, x: Step)
    requires x.Announce?
    ensures a.entries.Keys != Apply(a, x).entries.Keys <==> x.key !in a.entries && x.key in Apply(a, x).entries
  {
    var b := Apply(a, x);
    if x.key !in a.entries && x.key in b.entries { assert x.key in b.entries.Keys && x.key !in a.entries.Keys; }
  }

  /** The tables after the first announcements. */
  function Announced(st: State, s: Sync, n: nat): State
    requires n <= |s.announced|
  {
    if n == 0 then st else Apply(Announced(st, s, n - 1), AnnounceAt(s, n - 1))
  }

  lemma {:induction false} AnnouncedRuns(st: State, s: Sync, n: nat)
    requires n <= |s.announced|
    ensures RunFrom(st, Announcements(s, n)) == Announced(st, s, n)
  {
    if n > 0 {
      AnnouncedRuns(st, s, n - 1);
      RunNext(st, Announcements(s, n - 1), AnnounceAt(s, n - 1), Announced(st, s, n - 1));
    }
  }

  lemma RunNext(st: State, steps: seq<Step>, x: Step, a: State)
    requires RunFrom(st, steps) == a
    ensures RunFrom(st, steps + [x]) == Apply(a, x)
  {
    RunSnoc(st, steps, x);
  }

  lemma AnnounceAny(st: State, s: Sync, n: nat, a: State, b: State, k: Key)
    requires 0 < n <= |s.announced| && b == Apply(a, AnnounceAt(s, n - 1))
    requires Before(st, s, n, a, KeyAt(s, n - 1)) && KeyAfter(st, s, n - 1, a, k)
    ensures KeyAfter(st, s, n, b, k) && CountOf(b, s.node) == CountOf(st, s.node) + |Takes(st, s, n)|
  {
    AnnounceOne(st, s, n, a, KeyAt(s, n - 1));
    if k != KeyAt(s, n - 1) { AnnounceOther(st, s, n, a, k); }
  }

  /** What the first announcements did to one key and to the counter. */
  ghost predicate Told(st: State, s: Sync, n: nat, a: State, k: Key) {
    n <= |s.announced| && KeyAfter(st, s, n, a, k) && CountOf(a, s.node) == CountOf(st, s.node) + |Takes(st, s, n)|
  }

  lemma ToldNext(st: State, s: Sync, n: nat, a: State, b: State, k: Key)
    requires 0 < n <= |s.announced| && b == Apply(a, AnnounceAt(s, n - 1))
    requires Told(st, s, n - 1, a, KeyAt(s, n - 1)) && Told(st, s, n - 1, a, k)
    ensures Told(st, s, n, b, k)
  {
    AnnounceAny(st, s, n, a, b, k);
  }

  /** After the first announcements every key is as said. */
  lemma {:induction false} AnnouncementsDo(st: State, s: Sync, n: nat, k: Key)
    requires n <= |s.announced|
    ensures Told(st, s, n, Announced(st, s, n), k)
    decreases n
  {
    if n > 0 {
      AnnouncementsDo(st, s, n - 1, k);
      AnnouncementsDo(st, s, n - 1, KeyAt(s, n - 1));
      ToldNext(st, s, n, Announced(st, s, n - 1), Announced(st, s, n), k);
    }
  }

  lemma AnnounceMoves(st: State, s: Sync, n: nat)
    requires 0 < n <= |s.announced|
    ensures Announced(st, s, n - 1).entries.Keys != Announced(st, s, n).entries.Keys <==>
            Takes(st, s, n) != Takes(st, s, n - 1)
  {
    var a := Announced(st, s, n - 1);
    AnnouncementsDo(st, s, n - 1, KeyAt(s, n - 1));
    AnnounceOne(st, s, n, a, KeyAt(s, n - 1));
    AnnounceKeys(a, AnnounceAt(s, n - 1));
  }

  lemma TransitionsNext(st: State, s: Sync, n: nat)
    requires 0 < n <= |s.announced|
    ensures Transitions(st, Announcements(s, n)) <==>
            Transitions(st, Announcements(s, n - 1))
                || Announced(st, s, n - 1).entries.Keys != Announced(st, s, n).entries.Keys
  {
    AnnouncedRuns(st, s, n - 1);
    TransitionsSnoc(st, Announcements(s, n - 1), AnnounceAt(s, n - 1), Announced(st, s, n - 1), Announced(st, s, n));
  }

  /** A route entered exactly when one was taken. */
  lemma {:induction false} AnnouncementsMove(st: State, s: Sync, n: nat, steps: seq<Step>)
    requires n <= |s.announced| && steps == Announcements(s, n)
    ensures Transitions(st, steps) <==> Takes(st, s, n) != []
    decreases n
  {
    if n > 0 {
      AnnouncementsMove(st, s, n - 1, Announcements(s, n - 1));
      TransitionsNext(st, s, n);
      AnnounceMoves(st, s, n);
    }
  }

  // ----- withdrawals -----

  /** What the first withdrawals did to one key. */
  ghost predicate KeyGone(a: State, s: Sync, m: nat, b: State, k: Key)
    requires m <= |s.withdrawn|
  {
    && (k in b.entries <==> k in a.entries && (Withdrawn(s, m, k) ==> IsDamped(a, k, s.now)))
    && (k in b.entries ==> b.entries[k] == a.entries[k] && IsDamped(b, k, s.now) == IsDamped(a, k, s.now))
  }

  function WithdrawAt(s: Sync, m: nat): Step
    requires 0 < m <= |s.withdrawn|
  {
    Withdraw(Key(s.withdrawn[m - 1], s.node), s.now)
  }

  lemma WithdrawnNext(s: Sync, m: nat, k: Key)
    requires 0 < m <= |s.withdrawn|
    ensures Withdrawn(s, m, k) <==> Withdrawn(s, m - 1, k) || k == Key(s.withdrawn[m - 1], s.node)
  {
    assert s.withdrawn[..m] == s.withdrawn[..m - 1] + [s.withdrawn[m - 1]];
  }

  lemma WithdrawOne(a: State, s: Sync, m: nat, b: State, k: Key)
    requires 0 < m <= |s.withdrawn| && KeyGone(a, s, m - 1, b, k)
    ensures KeyGone(a, s, m, Apply(b, WithdrawAt(s, m)), k)
  {
    WithdrawnNext(s, m, k);
    if k != WithdrawAt(s, m).key { OtherKept(b, k, WithdrawAt(s, m)); }
  }

  /** Some withdrawn route was there and is not damped. */
  ghost predicate Departs(a: State, s: Sync, m: nat)
    requires m <= |s.withdrawn|
  {
    exists k :: k in a.entries && Withdrawn(s, m, k) && !IsDamped(a, k, s.now)
  }

  lemma WithdrawKeys(b: State, x: Step)
    requires x.Withdraw?
    ensures b.entries.Keys != Apply(b, x).entries.Keys <==> x.key in b.entries && !IsDamped(b, x.key, x.now)
  {
    if x.key in b.entries && !IsDamped(b, x.key, x.now) {
      assert x.key in b.entries.Keys && x.key !in Apply(b, x).entries.Keys;
    }
  }

  lemma DepartsNext(a: State, s: Sync, m: nat, b: State)
    requires 0 < m <= |s.withdrawn| && KeyGone(a, s, m - 1, b, WithdrawAt(s, m).key)
    ensures Departs(a, s, m) <==>
            Departs(a, s, m - 1) || (WithdrawAt(s, m).key in b.entries && !IsDamped(b, WithdrawAt(s, m).key, s.now))
  {
    var x := WithdrawAt(s, m).key;
    if Departs(a, s, m) {
      var k :| k in a.entries && Withdrawn(s, m, k) && !IsDamped(a, k, s.now);
      WithdrawnNext(s, m, k);
    }
    if Departs(a, s, m - 1) {
      var k :| k in a.entries && Withdrawn(s, m - 1, k) && !IsDamped(a, k, s.now);
      WithdrawnNext(s, m, k);
      assert Withdrawn(s, m, k);
    }
    WithdrawnNext(s, m, x);
    assert Withdrawn(s, m, x);
  }

  function Cleared(a: State, s: Sync, m: nat): State
    requires m <= |s.withdrawn|
  {
    if m == 0 then a else Apply(Cleared(a, s, m - 1), WithdrawAt(s, m))
  }

  lemma {:induction false} ClearedRuns(a: State, s: Sync, m: nat)
    requires m <= |s.withdrawn|
    ensures RunFrom(a, Withdrawals(s, m)) == Cleared(a, s, m)
  {
    if m > 0 {
      ClearedRuns(a, s, m - 1);
      RunNext(a, Withdrawals(s, m - 1), WithdrawAt(s, m), Cleared(a, s, m - 1));
    }
  }

  lemma {:induction false} WithdrawalsDo(a: State, s: Sync, m: nat, k: Key)
    requires m <= |s.withdrawn|
    ensures KeyGone(a, s, m, Cleared(a, s, m), k)
    decreases m
  {
    if m > 0 {
      WithdrawalsDo(a, s, m - 1, k);
      WithdrawOne(a, s, m, Cleared(a, s, m - 1), k);
    }
  }

  lemma WithdrawTransits(a: State, s: Sync, m: nat)
    requires 0 < m <= |s.withdrawn|
    ensures Transitions(a, Withdrawals(s, m)) <==>
            Transitions(a, Withdrawals(s, m - 1)) || Cleared(a, s, m - 1).entries.Keys != Cleared(a, s, m).entries.Keys
  {
    ClearedRuns(a, s, m - 1);
    TransitionsSnoc(a, Withdrawals(s, m - 1), WithdrawAt(s, m), Cleared(a, s, m - 1), Cleared(a, s, m));
  }

  lemma WithdrawDeparts(a: State, s: Sync, m: nat)
    requires 0 < m <= |s.withdrawn|
    ensures Departs(a, s, m) <==>
            Departs(a, s, m - 1) || Cleared(a, s, m - 1).entries.Keys != Cleared(a, s, m).entries.Keys
  {
    WithdrawalsDo(a, s, m - 1, WithdrawAt(s, m).key);
    WithdrawKeys(Cleared(a, s, m - 1), WithdrawAt(s, m));
    DepartsNext(a, s, m, Cleared(a, s, m - 1));
  }

  lemma {:induction false} WithdrawalsMove(a: State, s: Sync, m: nat)
    requires m <= |s.withdrawn|
    ensures Transitions(a, Withdrawals(s, m)) <==> Departs(a, s, m)
    decreases m
  {
    if m > 0 {
      WithdrawalsMove(a, s, m - 1);
      WithdrawTransits(a, s, m);
      WithdrawDeparts(a, s, m);
    }
  }

  // ----- the whole report -----

  lemma {:induction false} TransitionsConcat(st: State, x: seq<Step>, y: seq<Step>)
    ensures Transitions(st, x + y) <==> Transitions(st, x) || Transitions(RunFrom(st, x), y)
    decreases |y|
  {
    if y == [] {
      assert x + y == x;
    } else {
      var front, last := y[..|y| - 1], y[|y| - 1];
      assert x + y == x + front + [last] && y == front + [last];
      TransitionsConcat(st, x, front);
      RunConcat(st, x, front);
      RunSnoc(st, x + front, last);
      RunSnoc(RunFrom(st, x), front, last);
    }
  }

  /** The withdrawal of a route counts unless the route is damped. */
  predicate Leaves(st: State, s: Sync, k: Key) {
    Withdrawn(s, |s.withdrawn|, k) && !IsDamped(st, k, s.now)
  }

  function Taken(st: State, s: Sync): seq<Key> {
    Takes(st, s, |s.announced|)
  }

  /** The table after a report, key by key, over the report and the table before. */
  lemma ReportTable(st: State, s: Sync, k: Key)
    ensures var t := RunFrom(st, StepsOf(s)).entries;
            && (k in t <==> (k in st.entries || k in Taken(st, s)) && !Leaves(st, s, k))
            && (k in t ==> t[k] == Hop(st, s, |s.announced|, k))
  {
    var a := Announced(st, s, |s.announced|);
    AnnouncedRuns(st, s, |s.announced|);
    AnnouncementsDo(st, s, |s.announced|, k);
    ClearedRuns(a, s, |s.withdrawn|);
    WithdrawalsDo(a, s, |s.withdrawn|, k);
    RunConcat(st, Announcements(s, |s.announced|), Withdrawals(s, |s.withdrawn|));
  }

  /** Some route of the old table leaves. */
  ghost predicate Loses(st: State, s: Sync) {
    exists k :: k in st.entries && Leaves(st, s, k)
  }

  lemma DepartsIsLoses(st: State, s: Sync)
    requires Taken(st, s) == []
    ensures Departs(Announced(st, s, |s.announced|), s, |s.withdrawn|) <==> Loses(st, s)
  {
    var a := Announced(st, s, |s.announced|);
    forall k ensures KeyAfter(st, s, |s.announced|, a, k) { AnnouncementsDo(st, s, |s.announced|, k); }
    if Departs(a, s, |s.withdrawn|) {
      var k :| k in a.entries && Withdrawn(s, |s.withdrawn|, k) && !IsDamped(a, k, s.now);
      assert KeyAfter(st, s, |s.announced|, a, k);
      assert Leaves(st, s, k);
    }
    if Loses(st, s) {
      var k :| k in st.entries && Leaves(st, s, k);
      assert KeyAfter(st, s, |s.announced|, a, k);
    }
  }

  /** The version moves exactly when a new route is taken or an old one leaves. */
  lemma ReportMoves(st: State, s: Sync)
    ensures Transitions(st, StepsOf(s)) <==> Taken(st, s) != [] || Loses(st, s)
  {
    TransitionsConcat(st, Announcements(s, |s.announced|), Withdrawals(s, |s.withdrawn|));
    AnnouncementsMove(st, s, |s.announced|, Announcements(s, |s.announced|));
    AnnouncedRuns(st, s, |s.announced|);
    WithdrawalsMove(Announced(st, s, |s.announced|), s, |s.withdrawn|);
    if Taken(st, s) == [] { DepartsIsLoses(st, s); }
  }

  // ----- when the version misses a change, or counts one that is none -----

  /** The last announcement of an old route, outside damping and inside the coverage, names another next hop. */
  predicate Rehops(st: State, s: Sync, n: nat, k: Key)
    requires n <= |s.announced|
  {
    && k in st.entries && Open(st, s, k)
    && exists i :: 0 <= i < n && KeyAt(s, i) == k && s.announced[i].1 != st.entries[k] && LastOf(s, n, i)
  }

  predicate LastOf(s: Sync, n: nat, i: nat)
    requires i < n <= |s.announced|
  {
    forall j :: i < j < n ==> KeyAt(s, j) != KeyAt(s, i)
  }

  lemma {:induction false} HopIsLast(st: State, s: Sync, n: nat, k: Key)
    requires n <= |s.announced| && k in st.entries
    ensures Hop(st, s, n, k) != st.entries[k] <==> Rehops(st, s, n, k)
    decreases n
  {
    if n > 0 {
      HopIsLast(st, s, n - 1, k);
      if KeyAt(s, n - 1) == k && Open(st, s, k) {
        assert LastOf(s, n, n - 1);
      } else {
        RehopsOlder(st, s, n, k);
      }
    }
  }

  lemma RehopsOlder(st: State, s: Sync, n: nat, k: Key)
    requires 0 < n <= |s.announced| && k in st.entries && (Open(st, s, k) ==> KeyAt(s, n - 1) != k)
    ensures Rehops(st, s, n, k) <==> Rehops(st, s, n - 1, k)
  {
    if Rehops(st, s, n, k) {
      var i :| 0 <= i < n && KeyAt(s, i) == k && s.announced[i].1 != st.entries[k] && LastOf(s, n, i);
      assert LastOf(s, n - 1, i);
    }
    if Rehops(st, s, n - 1, k) {
      var i :| 0 <= i < n - 1 && KeyAt(s, i) == k && s.announced[i].1 != st.entries[k] && LastOf(s, n - 1, i);
      assert LastOf(s, n, i);
    }
  }

  ghost predicate SomeRehop(st: State, s: Sync) {
    exists k :: Rehops(st, s, |s.announced|, k)
  }

  /** Every new route of the report leaves again. */
  ghost predicate AllReturned(st: State, s: Sync) {
    forall k :: k in Taken(st, s) ==> Leaves(st, s, k)
  }

  lemma {:induction false} TakesNew(st: State, s: Sync, n: nat, k: Key)
    requires n <= |s.announced| && k in Takes(st, s, n)
    ensures k !in st.entries
  {
    if k !in Takes(st, s, n - 1) { assert k == KeyAt(s, n - 1); } else { TakesNew(st, s, n - 1, k); }
  }

  /**
   * The table is the same after a report exactly when no old route leaves or changes its hop and every new one leaves
   * again.
   */
  lemma SameTableExactly(st: State, s: Sync)
    ensures RunFrom(st, StepsOf(s)).entries == st.entries <==> !Loses(st, s) && !SomeRehop(st, s) && AllReturned(st, s)
  {
    var t := RunFrom(st, StepsOf(s)).entries;
    forall k
      ensures k in st.entries ==>
              (k in t <==> !Leaves(st, s, k)) && (k in t ==>
              (t[k] == st.entries[k] <==> !Rehops(st, s, |s.announced|, k)))
      ensures k !in st.entries ==> (k in t <==> k in Taken(st, s) && !Leaves(st, s, k))
    {
      ReportTable(st, s, k);
      if k in st.entries { HopIsLast(st, s, |s.announced|, k); }
    }
    forall k | k in Taken(st, s) ensures k !in st.entries { TakesNew(st, s, |s.announced|, k); }
    if t == st.entries { NothingMissed(st, s, t); }
  }

  lemma NothingMissed(st: State, s: Sync, t: map<Key, string>)
    requires t == st.entries && (forall k :: k in Taken(st, s) ==> k !in st.entries)
    requires forall k :: k in st.entries ==> (k in t <==> !Leaves(st, s, k))
    requires forall k :: k in st.entries ==> (k in t ==> (t[k] == st.entries[k] <==> !Rehops(st, s, |s.announced|, k)))
    requires forall k :: k !in st.entries ==> (k in t <==> k in Taken(st, s) && !Leaves(st, s, k))
    ensures !Loses(st, s) && !SomeRehop(st, s) && AllReturned(st, s)
  {}

  /** A report changes the table under an unchanged version exactly when it only renames next hops. */
  lemma SilentExactly(st: State, s: Sync)
    ensures RunFrom(st, StepsOf(s)).entries != st.entries && !Transitions(st, StepsOf(s))
       <==> Taken(st, s) == [] && !Loses(st, s) && SomeRehop(st, s)
  {
    ReportMoves(st, s);
    SameTableExactly(st, s);
  }

  /** A report moves the version under an unchanged table exactly when it takes new routes and withdraws just those. */
  lemma BumpExactly(st: State, s: Sync)
    ensures RunFrom(st, StepsOf(s)).entries == st.entries && Transitions(st, StepsOf(s))
       <==> Taken(st, s) != [] && AllReturned(st, s) && !Loses(st, s) && !SomeRehop(st, s)
  {
    ReportMoves(st, s);
    SameTableExactly(st, s);
  }

  // ----- one input each -----

  /** One node announcing the whole of IPv4 with room for one route. */
  function Report(hop: string, back: bool, now: nat): Sync {
    var all: Prefix := PrefixRep(0, 0, true);
    Sync(1, [(all, hop)], if back then [all] else [], [all], 1, now)
  }

  /**
   * The first report brings the route; the second only names another next hop: the table changes and the version does
   * not.
   */
  lemma HopChangesSilently()
    ensures var st := RunFrom(EMPTY, StepsOf(Report("a", false, 0)));
            var again := StepsOf(Report("b", false, 1));
            RunFrom(st, again).entries != st.entries && !Transitions(st, again)
  {
    var first, again := Report("a", false, 0), Report("b", false, 1);
    var k := KeyAt(first, 0);
    var st := RunFrom(EMPTY, StepsOf(first));
    WholeCovered(first);
    assert Takes(EMPTY, first, 0) == [] && Takes(EMPTY, first, 1) == [k];
    ReportTable(EMPTY, first, k);
    WholeCovered(again);
    StillOpen(first, k, st);
    assert Takes(st, again, 0) == [] && Takes(st, again, 1) == [];
    assert LastOf(again, 1, 0) && Rehops(st, again, 1, k);
    SilentExactly(st, again);
  }

  lemma WholeCovered(s: Sync)
    requires s.coverage == [PrefixRep(0, 0, true)]
    ensures Covered(PrefixRep(0, 0, true), s.coverage)
  {
    ContainsItself(PrefixRep(0, 0, true));
    assert IsCoveredBy(PrefixRep(0, 0, true), s.coverage[0]);
  }

  lemma StillOpen(first: Sync, k: Key, st: State)
    requires first == Report("a", false, 0) && k == KeyAt(first, 0) && st == RunFrom(EMPTY, StepsOf(first))
    ensures !IsDamped(st, k, 1)
  {
    var a := Announced(EMPTY, first, 1);
    AnnouncedRuns(EMPTY, first, 1);
    assert Announced(EMPTY, first, 0) == EMPTY;
    assert a == Apply(EMPTY, AnnounceAt(first, 0));
    RecentCount([], 0);
    assert Recent([], 0) == [] && Flipped(EMPTY, k, 0) == [0];
    assert StepsOf(first) == Announcements(first, 1) + [];
    assert Announcements(first, 1) + [] == Announcements(first, 1);
  }

  /** A route announced and withdrawn in one report: the version moves and the table is the same. */
  lemma RoundTripBumps()
    ensures var steps := StepsOf(Report("a", true, 0));
            RunFrom(EMPTY, steps).entries == EMPTY.entries && Transitions(EMPTY, steps)
  {
    var s := Report("a", true, 0);
    var k := KeyAt(s, 0);
    WholeCovered(s);
    assert Takes(EMPTY, s, 0) == [] && Takes(EMPTY, s, 1) == [k];
    assert s.withdrawn[0] == k.prefix;
    assert Leaves(EMPTY, s, k);
    BumpExactly(EMPTY, s);
  }
}
