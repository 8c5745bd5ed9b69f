/** When a roster change gives the same path ids whatever order the hash map lists the pairs in. */
module PathDivergence {
  import opened PathModel
  import opened PathMirror
  import opened PathOrder
  import opened NetworkDomain
  import opened PathReplay

  /** No two pairs take ids in an expansion. */
  ghost predicate OneTaker(t: Table, now: nat) {
    forall p, q :: p in t.sets && q in t.sets && Need(t, p, now) > 0 && Need(t, q, now) > 0 ==> p == q
  }

  ghost predicate OrderFree(t: Table, now: nat) {
    forall a, b :: Lists(a, t.sets.Keys) && Lists(b, t.sets.Keys) ==> Expand(t, a, now).table == Expand(t, b, now).table
  }

  // ----- one set -----

  lemma {:induction false} FillFirstId(cs: seq<PathCandidate>, usable: seq<NodeId>, dest: NodeId, budget: nat,
      lastId: nat, now: nat)
    requires |Fill(cs, usable, dest, budget, lastId, now)| > |cs|
    ensures Fill(cs, usable, dest, budget, lastId, now)[|cs|].pathId == lastId + 1
    decreases |usable|
  {
    if HasFirstHop(cs, usable[0]) {
      FillFirstId(cs, usable[1..], dest, budget, lastId, now);
    } else {
      var more := cs + [Via(lastId + 1, usable[0], dest, now)];
      var r := Fill(more, usable[1..], dest, budget, lastId + 1, now);
      assert r[|cs|] == r[..|more|][|cs|];
    }
  }

  /** Where in the expanded set the first new id is. */
  function FirstNew(ps: PathSet, usable: seq<NodeId>): nat {
    if BaseAlloc(ps) == 1 then 0 else |DirectOnly(ps.candidates)| + |KeptRelays(ps.candidates, usable)|
  }

  lemma FirstNewId(ps: PathSet, usable: seq<NodeId>, dest: NodeId, lastId: nat, now: nat)
    requires Allocated(ps, usable, dest, lastId, now) > 0
    ensures var r := ExpandedCandidates(ps, usable, dest, lastId, now);
            FirstNew(ps, usable) < |r| && r[FirstNew(ps, usable)].pathId == lastId + 1
  {
    var kept := KeptCandidates(ps, usable, dest, lastId, now);
    var r := ExpandedCandidates(ps, usable, dest, lastId, now);
    if BaseAlloc(ps) == 1 {
      assert r[0] == r[..|kept|][0] == kept[0];
    } else {
      FillFirstId(kept, usable, dest, Clamp(ps.max), lastId, now);
    }
  }

  lemma NoneTaken(ps: PathSet, usable: seq<NodeId>, dest: NodeId, idA: nat, idB: nat, now: nat)
    requires Allocated(ps, usable, dest, idA, now) == 0
    ensures ExpandedCandidates(ps, usable, dest, idA, now) == ExpandedCandidates(ps, usable, dest, idB, now)
  {
    ExpandedIgnoresIds(ps, usable, dest, idA, idB, now);
    var kept := KeptCandidates(ps, usable, dest, idA, now);
    assert kept == KeptCandidates(ps, usable, dest, idB, now);
    var a, b := ExpandedCandidates(ps, usable, dest, idA, now), ExpandedCandidates(ps, usable, dest, idB, now);
    assert a == a[..|kept|] == kept && b == b[..|kept|] == kept;
  }

  // ----- at most one taker: the order does not matter -----

  /** What the expansion makes of a pair's set when the counter stands where the table has it. */
  function Outcomes(t: Table, p: Pair, now: nat): PathSet
    requires p in t.sets
  {
    ExpandAt(t, p, now).table.sets[p]
  }

  ghost predicate SoFar(t: Table, m: Table, done: set<Pair>, now: nat) {
    && m.sets.Keys == t.sets.Keys && m.relays == t.relays && m.lastId == t.lastId + TotalNeed(t, done, now)
    && forall q :: q in t.sets ==> m.sets[q] == if q in done then Outcomes(t, q, now) else t.sets[q]
  }

  lemma {:induction false} NothingTaken(t: Table, pairs: set<Pair>, now: nat)
    requires forall q :: q in pairs ==> Need(t, q, now) == 0
    ensures TotalNeed(t, pairs, now) == 0
  {
    if pairs != {} {
      var p :| p in pairs;
      TotalNeedSplit(t, pairs, now, p);
      NothingTaken(t, pairs - {p}, now);
    }
  }

  lemma Visit(t: Table, m: Table, done: set<Pair>, p: Pair, now: nat)
    requires SoFar(t, m, done, now) && p in t.sets && p !in done && done <= t.sets.Keys && OneTaker(t, now)
    ensures SoFar(t, ExpandAt(m, p, now).table, done + {p}, now)
  {
    TotalNeedSplit(t, done + {p}, now, p);
    assert done + {p} - {p} == done;
    var usable := Usable(t.relays, p);
    if NeedsExpansion(t.sets[p], usable, now) {
      ExpandedIgnoresIds(t.sets[p], usable, p.dest, m.lastId, 0, now);
      if Need(t, p, now) > 0 {
        NothingTaken(t, done, now);
      } else {
        NoneTaken(t.sets[p], usable, p.dest, m.lastId, t.lastId, now);
      }
    }
  }

  lemma {:induction false} ExpandOne(t: Table, order: seq<Pair>, now: nat)
    requires OneTaker(t, now) && (forall i, j :: 0 <= i < j < |order| ==> order[i] != order[j])
    requires forall p :: p in order ==> p in t.sets
    ensures SoFar(t, Expand(t, order, now).table, PairsOf(order), now)
  {
    if order == [] {
      assert PairsOf(order) == {};
    } else {
      var front, last := order[..|order| - 1], order[|order| - 1];
      assert order == front + [last];
      ExpandOne(t, front, now);
      assert PairsOf(order) == PairsOf(front) + {last};
      Visit(t, Expand(t, front, now).table, PairsOf(front), last, now);
    }
  }

  lemma OneTakerOrderFree(t: Table, a: seq<Pair>, b: seq<Pair>, now: nat)
    requires OneTaker(t, now) && Lists(a, t.sets.Keys) && Lists(b, t.sets.Keys)
    ensures Expand(t, a, now).table == Expand(t, b, now).table
  {
    ExpandOne(t, a, now);
    ExpandOne(t, b, now);
    assert PairsOf(a) == t.sets.Keys == PairsOf(b);
    SoFarUnique(t, Expand(t, a, now).table, Expand(t, b, now).table, t.sets.Keys, now);
  }

  lemma SoFarUnique(t: Table, x: Table, y: Table, done: set<Pair>, now: nat)
    requires SoFar(t, x, done, now) && SoFar(t, y, done, now)
    ensures x == y
  {
    assert x.sets == y.sets;
  }

  // ----- two takers: exchanging them exchanges ids -----

  lemma {:induction false} ExpandConcat(t: Table, a: seq<Pair>, b: seq<Pair>, now: nat)
    ensures Expand(t, a + b, now).table == Expand(Expand(t, a, now).table, b, now).table
  {
    if b == [] {
      assert a + b == a;
    } else {
      ExpandConcat(t, a, b[..|b| - 1], now);
      assert (a + b)[..|a + b| - 1] == a + b[..|b| - 1];
    }
  }

  lemma ExpandOnto(t: Table, order: seq<Pair>, p: Pair, now: nat)
    ensures Expand(t, order + [p], now).table == ExpandAt(Expand(t, order, now).table, p, now).table
  {
    assert (order + [p])[..|order|] == order;
  }

  /** The table after two visits. */
  function Twice(t: Table, p: Pair, q: Pair, now: nat): Table {
    ExpandAt(ExpandAt(t, p, now).table, q, now).table
  }

  lemma ExpandTwo(t: Table, p: Pair, q: Pair, now: nat)
    ensures Expand(t, [] + [p] + [q], now).table == Twice(t, p, q, now)
  {
    ExpandOnto(t, [], p, now);
    ExpandOnto(t, [] + [p], q, now);
  }

  /** A stored candidate and its id. */
  ghost predicate HasId(t: Table, p: Pair, k: nat, id: nat) {
    p in t.sets && k < |t.sets[p].candidates| && t.sets[p].candidates[k].pathId == id
  }

  /** A pair that takes ids is given the next one when it is visited. */
  lemma TakerGets(t: Table, m: Table, p: Pair, now: nat)
    requires p in t.sets && p in m.sets && m.sets[p] == t.sets[p] && m.relays == t.relays && Need(t, p, now) > 0
    ensures HasId(ExpandAt(m, p, now).table, p, FirstNew(t.sets[p], Usable(t.relays, p)), m.lastId + 1)
  {
    ExpandedIgnoresIds(t.sets[p], Usable(t.relays, p), p.dest, m.lastId, 0, now);
    FirstNewId(t.sets[p], Usable(t.relays, p), p.dest, m.lastId, now);
  }

  lemma VisitedFirst(t: Table, p: Pair, q: Pair, now: nat)
    requires p in t.sets && p != q && Need(t, p, now) > 0
    ensures HasId(Twice(t, p, q, now), p, FirstNew(t.sets[p], Usable(t.relays, p)), t.lastId + 1)
  {
    TakerGets(t, t, p, now);
  }

  lemma VisitedSecond(t: Table, p: Pair, q: Pair, now: nat) returns (id: nat)
    requires p in t.sets && q in t.sets && p != q && Need(t, p, now) > 0 && Need(t, q, now) > 0
    ensures HasId(Twice(t, q, p, now), p, FirstNew(t.sets[p], Usable(t.relays, p)), id) && id != t.lastId + 1
  {
    var m := ExpandAt(t, q, now).table;
    ExpandedIgnoresIds(t.sets[q], Usable(t.relays, q), q.dest, t.lastId, 0, now);
    assert m.lastId > t.lastId;
    TakerGets(t, m, p, now);
    id := m.lastId + 1;
  }

  /** The rest of the pass leaves them alone. */
  lemma RestKeeps(m: Table, rest: seq<Pair>, p: Pair, k: nat, id: nat, now: nat)
    requires HasId(m, p, k, id) && p !in rest && forall i, j :: 0 <= i < j < |rest| ==> rest[i] != rest[j]
    ensures HasId(Expand(m, rest, now).table, p, k, id)
  {
    ExpandPass(m, rest, now);
    assert p !in PairsOf(rest);
  }

  lemma Listing(pairs: set<Pair>) returns (order: seq<Pair>)
    ensures Lists(order, pairs)
  {
    order := [];
    var left := pairs;
    while left != {}
      invariant left <= pairs && Lists(order, pairs - left)
      decreases |left|
    {
      var p :| p in left;
      assert pairs - (left - {p}) == (pairs - left) + {p};
      order, left := order + [p], left - {p};
    }
    assert pairs - left == pairs;
  }

  lemma ListsTwo(p: Pair, q: Pair, rest: seq<Pair>, pairs: set<Pair>)
    requires p in pairs && q in pairs && p != q && Lists(rest, pairs - {p, q})
    ensures Lists([] + [p] + [q] + rest, pairs)
  {
    var order := [] + [p] + [q] + rest;
    assert order[0] == p && order[1] == q;
    assert forall i :: 2 <= i < |order| ==> order[i] == rest[i - 2] && rest[i - 2] in pairs - {p, q};
    assert forall x :: x in rest ==> x in order;
  }

  lemma Splits(t: Table, p: Pair, q: Pair, now: nat) returns (a: seq<Pair>, b: seq<Pair>)
    requires p in t.sets && q in t.sets && p != q && Need(t, p, now) > 0 && Need(t, q, now) > 0
    ensures Lists(a, t.sets.Keys) && Lists(b, t.sets.Keys)
    ensures Expand(t, a, now).table != Expand(t, b, now).table
  {
    var pairs, k := t.sets.Keys, FirstNew(t.sets[p], Usable(t.relays, p));
    var rest := Listing(pairs - {p, q});
    assert pairs - {p, q} == pairs - {q, p};
    ListsTwo(p, q, rest, pairs);
    ListsTwo(q, p, rest, pairs);
    a, b := [] + [p] + [q] + rest, [] + [q] + [p] + rest;
    VisitedFirst(t, p, q, now);
    var id := VisitedSecond(t, p, q, now);
    OrderGives(t, p, q, rest, p, k, t.lastId + 1, now);
    OrderGives(t, q, p, rest, p, k, id, now);
  }

  lemma OrderGives(t: Table, p: Pair, q: Pair, rest: seq<Pair>, x: Pair, k: nat, id: nat, now: nat)
    requires HasId(Twice(t, p, q, now), x, k, id)
    requires x !in rest && forall i, j :: 0 <= i < j < |rest| ==> rest[i] != rest[j]
    ensures HasId(Expand(t, [] + [p] + [q] + rest, now).table, x, k, id)
  {
    ExpandTwo(t, p, q, now);
    ExpandConcat(t, [] + [p] + [q], rest, now);
    RestKeeps(Twice(t, p, q, now), rest, x, k, id, now);
  }

  /** An expansion gives the same ids under all orders exactly when at most one pair takes any. */
  lemma OrderFreeExactly(t: Table, now: nat)
    ensures OrderFree(t, now) <==> OneTaker(t, now)
  {
    if OneTaker(t, now) {
      forall a, b | Lists(a, t.sets.Keys) && Lists(b, t.sets.Keys)
          ensures Expand(t, a, now).table == Expand(t, b, now).table {
        OneTakerOrderFree(t, a, b, now);
      }
    } else {
      var p, q :| p in t.sets && q in t.sets && Need(t, p, now) > 0 && Need(t, q, now) > 0 && p != q;
      var a, b := Splits(t, p, q, now);
    }
  }

  // ----- a whole roster change -----

  /** Every pass of the withdrawals in the same order. */
  function Passes(n: nat, order: seq<Pair>): (r: seq<seq<Pair>>)
    ensures |r| == n
  {
    if n == 0 then [] else Passes(n - 1, order) + [order]
  }

  lemma {:induction false} PassesCover(t: Table, dropped: seq<NodeId>, order: seq<Pair>)
    requires forall p :: p in t.sets ==> p in order
    ensures DropsCover(t, dropped, Passes(|dropped|, order))
    ensures DropAll(t, dropped, Passes(|dropped|, order)).sets.Keys <= t.sets.Keys
  {
    if dropped != [] {
      var front, fronts := dropped[..|dropped| - 1], Passes(|dropped| - 1, order);
      PassesCover(t, front, order);
      assert Passes(|dropped|, order)[..|dropped| - 1] == fronts;
      var m := DropAll(t, front, fronts);
      WithdrawRelayGives(m, dropped[|dropped| - 1], order);
    }
  }

  /** The roster change under some order of the final pass. */
  lemma SomeChange(t: Table, roster: seq<NodeId>, order: seq<Pair>, now: nat) returns (op: DomainOp)
    requires Lists(order, Narrowed(t, roster).sets.Keys)
    ensures op.ApplyRoster? && op.roster == roster && op.order == order && op.now == now && Enabled(t, op)
  {
    var every := Listing(t.sets.Keys);
    var dropped := Dropped(t.relays, roster);
    var drops := Passes(|dropped|, every);
    PassesCover(t.(relays := roster), dropped, every);
    DropAllGives(t.(relays := roster), dropped, drops);
    op := ApplyRoster(roster, drops, order, now);
  }

  ghost predicate ToRoster(op: DomainOp, roster: seq<NodeId>, now: nat) {
    op.ApplyRoster? && op.roster == roster && op.now == now
  }

  ghost predicate RosterFree(t: Table, roster: seq<NodeId>, now: nat) {
    forall a: DomainOp, b: DomainOp ::
      ToRoster(a, roster, now) && ToRoster(b, roster, now) && Enabled(t, a) && Enabled(t, b) ==>
        RunFrom(t, Calls(t, a)).table == RunFrom(t, Calls(t, b)).table
  }

  /** A roster change gives one table under all orders exactly when at most one pair takes ids in it. */
  lemma RosterFreeExactly(t: Table, roster: seq<NodeId>, now: nat)
    ensures RosterFree(t, roster, now) <==> OneTaker(Narrowed(t, roster), now)
  {
    var m := Narrowed(t, roster);
    if OneTaker(m, now) {
      forall a: DomainOp, b: DomainOp |
          ToRoster(a, roster, now) && ToRoster(b, roster, now) && Enabled(t, a) && Enabled(t, b)
          ensures RunFrom(t, Calls(t, a)).table == RunFrom(t, Calls(t, b)).table {
        RosterGives(t, a);
        RosterGives(t, b);
        OneTakerOrderFree(m, a.order, b.order, now);
      }
    } else {
      var p, q :| p in m.sets && q in m.sets && Need(m, p, now) > 0 && Need(m, q, now) > 0 && p != q;
      var a, b := Splits(m, p, q, now);
      var x := SomeChange(t, roster, a, now);
      var y := SomeChange(t, roster, b, now);
      RosterGives(t, x);
      RosterGives(t, y);
      assert ToRoster(x, roster, now) && ToRoster(y, roster, now);
    }
  }
}
