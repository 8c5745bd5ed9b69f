/**
 * One network's paths on two replicas: whatever orders their hash maps list the pairs in, the tables stay equal up to
 * path ids.
 */
module PathReplay {
  import opened PathModel
  import opened PathMirror
  import opened PathOrder
  import opened NetworkDomain

  /** Equal up to path ids, with the same id counter. */
  ghost predicate SameTable(s: Table, t: Table) {
    && s.lastId == t.lastId && s.relays == t.relays && s.sets.Keys == t.sets.Keys
    && forall p :: p in s.sets ==> SameSetButIds(s.sets[p], t.sets[p])
  }

  // ----- candidate lists -----

  lemma SameFront(a: seq<PathCandidate>, b: seq<PathCandidate>)
    requires SameButIds(a, b) && a != []
    ensures SameButIds(a[..|a| - 1], b[..|b| - 1]) && a[|a| - 1].(pathId := 0) == b[|b| - 1].(pathId := 0)
    ensures a[|a| - 1].hops == b[|b| - 1].hops
  {
    var c, d := a[|a| - 1].(pathId := 0), b[|b| - 1].(pathId := 0);
    assert c == d;
    assert c.hops == a[|a| - 1].hops && d.hops == b[|b| - 1].hops;
  }

  lemma {:induction false} UsingSame(a: seq<PathCandidate>, b: seq<PathCandidate>, node: NodeId)
    requires SameButIds(a, b)
    ensures SameButIds(Using(a, node), Using(b, node))
  {
    if a != [] {
      SameFront(a, b);
      UsingSame(a[..|a| - 1], b[..|b| - 1], node);
    }
  }

  lemma {:induction false} NotUsingSame(a: seq<PathCandidate>, b: seq<PathCandidate>, node: NodeId)
    requires SameButIds(a, b)
    ensures SameButIds(NotUsing(a, node), NotUsing(b, node))
  {
    if a != [] {
      var x, y := a[..|a| - 1], b[..|b| - 1];
      SameFront(a, b);
      NotUsingSame(x, y, node);
      if node !in a[|a| - 1].hops { SameSnoc(NotUsing(x, node), NotUsing(y, node), a[|a| - 1], b[|b| - 1]); }
    }
  }

  lemma SameSnoc(a: seq<PathCandidate>, b: seq<PathCandidate>, c: PathCandidate, d: PathCandidate)
    requires SameButIds(a, b) && c.(pathId := 0) == d.(pathId := 0)
    ensures SameButIds(a + [c], b + [d])
  {}

  lemma {:induction false} KeptSame(a: seq<PathCandidate>, b: seq<PathCandidate>, usable: seq<NodeId>)
    requires SameButIds(a, b)
    ensures SameButIds(DirectOnly(a), DirectOnly(b)) && SameButIds(KeptRelays(a, usable), KeptRelays(b, usable))
  {
    if a != [] {
      SameFront(a, b);
      KeptSame(a[..|a| - 1], b[..|b| - 1], usable);
    }
  }

  lemma HopSame(a: seq<PathCandidate>, b: seq<PathCandidate>, relay: NodeId)
    requires SameButIds(a, b)
    ensures HasFirstHop(a, relay) <==> HasFirstHop(b, relay)
  {
    if HasFirstHop(a, relay) { SameHops(a, b, relay); }
    if HasFirstHop(b, relay) { SameHops(b, a, relay); }
  }

  lemma ExpirySame(a: PathSet, b: PathSet, now: nat)
    requires SameSetButIds(a, b)
    ensures Expired(a, now) <==> Expired(b, now)
  {
    forall i | 0 <= i < |a.candidates| ensures a.candidates[i].expiresAt == b.candidates[i].expiresAt {
      var c, d := a.candidates[i].(pathId := 0), b.candidates[i].(pathId := 0);
      assert c == d;
      assert c.expiresAt == a.candidates[i].expiresAt && d.expiresAt == b.candidates[i].expiresAt;
    }
  }

  lemma NeedsSame(a: PathSet, b: PathSet, usable: seq<NodeId>, now: nat)
    requires SameSetButIds(a, b)
    ensures NeedsExpansion(a, usable, now) <==> NeedsExpansion(b, usable, now)
  {
    ExpirySame(a, b, now);
    forall i | 0 <= i < |usable|
        ensures HasFirstHop(a.candidates, usable[i]) <==> HasFirstHop(b.candidates, usable[i]) {
      HopSame(a.candidates, b.candidates, usable[i]);
    }
  }

  lemma ExpandedSame(a: PathSet, b: PathSet, usable: seq<NodeId>, dest: NodeId, idA: nat, idB: nat, now: nat)
    requires SameSetButIds(a, b)
    ensures SameButIds(ExpandedCandidates(a, usable, dest, idA, now), ExpandedCandidates(b, usable, dest, idB, now))
    ensures Allocated(a, usable, dest, idA, now) == Allocated(b, usable, dest, idB, now)
  {
    KeptSame(a.candidates, b.candidates, usable);
    var x, y := KeptCandidates(a, usable, dest, idA, now), KeptCandidates(b, usable, dest, idB, now);
    assert SameButIds(x, y);
    FillIgnoresIds(x, y, usable, dest, Clamp(a.max), idA + BaseAlloc(a), idB + BaseAlloc(b), now);
  }

  // ----- requests -----

  lemma RequestSame(s: Table, t: Table, pair: Pair, max: nat, now: nat)
    requires SameTable(s, t)
    ensures SameTable(Request(s, pair, max, now).table, Request(t, pair, max, now).table)
  {
    if pair in s.sets { ExpirySame(s.sets[pair], t.sets[pair], now); }
  }

  // ----- withdrawals: the outcome does not depend on the order -----

  function Withdrawn(ps: PathSet, node: NodeId): PathSet {
    if Using(ps.candidates, node) == [] then ps
    else PathSet(ps.version + 1, NotUsing(ps.candidates, node), ps.max)
  }

  predicate Empties(ps: PathSet, node: NodeId) {
    Using(ps.candidates, node) != [] && NotUsing(ps.candidates, node) == []
  }

  predicate AnEnd(p: Pair, node: NodeId) {
    p.source == node || p.dest == node
  }

  /** The table without the candidates through a node. */
  function RelayGone(t: Table, node: NodeId): Table {
    t.(sets := map p | p in t.sets && !Empties(t.sets[p], node) :: Withdrawn(t.sets[p], node))
  }

  /** The table without a node at an end or on a way. */
  function NodeGone(t: Table, node: NodeId): Table {
    t.(sets := map p | p in t.sets && !AnEnd(p, node) && !Empties(t.sets[p], node) :: Withdrawn(t.sets[p], node))
  }

  /** A pass has brought the listed pairs to where they end and left the others. */
  ghost predicate Passed(t: Table, m: Table, goal: Table, order: seq<Pair>) {
    && m.lastId == t.lastId && m.relays == t.relays
    && forall p {:trigger p in m.sets} ::
         && (p in m.sets <==> if p in order then p in goal.sets else p in t.sets)
         && (p in m.sets ==> m.sets[p] == if p in order then goal.sets[p] else t.sets[p])
  }

  lemma Settled(ps: PathSet, node: NodeId)
    ensures Using(Withdrawn(ps, node).candidates, node) == []
  {
    NoneUsing(NotUsing(ps.candidates, node), node);
  }

  lemma {:induction false} NoneUsing(cs: seq<PathCandidate>, node: NodeId)
    requires forall c :: c in cs ==> node !in c.hops
    ensures Using(cs, node) == []
  {
    if cs != [] {
      assert cs[|cs| - 1] in cs;
      NoneUsing(cs[..|cs| - 1], node);
    }
  }

  lemma PassedOn(t: Table, m: Table, m': Table, goal: Table, front: seq<Pair>, last: Pair)
    requires Passed(t, m, goal, front) && m'.lastId == m.lastId && m'.relays == m.relays
    requires forall p :: p != last ==> (p in m'.sets <==> p in m.sets) && (p in m.sets ==> m'.sets[p] == m.sets[p])
    requires last in m'.sets <==> last in goal.sets
    requires last in m'.sets ==> m'.sets[last] == goal.sets[last]
    ensures Passed(t, m', goal, front + [last])
  {}

  lemma RelayVisited(t: Table, m: Table, node: NodeId, front: seq<Pair>, last: Pair)
    requires Passed(t, m, RelayGone(t, node), front)
    ensures Passed(t, WithdrawInSet(m, last, node).table, RelayGone(t, node), front + [last])
  {
    if last in t.sets { Settled(t.sets[last], node); }
    assert last in m.sets <==> if last in front then last in RelayGone(t, node).sets else last in t.sets;
    PassedOn(t, m, WithdrawInSet(m, last, node).table, RelayGone(t, node), front, last);
  }

  lemma NodeVisited(t: Table, m: Table, node: NodeId, front: seq<Pair>, last: Pair)
    requires Passed(t, m, NodeGone(t, node), front)
    ensures Passed(t, WithdrawNodeAt(m, last, node).table, NodeGone(t, node), front + [last])
  {
    if last in t.sets { Settled(t.sets[last], node); }
    assert last in m.sets <==> if last in front then last in NodeGone(t, node).sets else last in t.sets;
    PassedOn(t, m, WithdrawNodeAt(m, last, node).table, NodeGone(t, node), front, last);
  }

  lemma {:induction false} WithdrawRelayPassed(t: Table, node: NodeId, order: seq<Pair>)
    ensures Passed(t, WithdrawRelay(t, node, order).table, RelayGone(t, node), order)
  {
    if order != [] {
      var front, last := order[..|order| - 1], order[|order| - 1];
      WithdrawRelayPassed(t, node, front);
      RelayVisited(t, WithdrawRelay(t, node, front).table, node, front, last);
      assert order == front + [last];
    }
  }

  lemma {:induction false} WithdrawNodePassed(t: Table, node: NodeId, order: seq<Pair>)
    ensures Passed(t, WithdrawNode(t, node, order).table, NodeGone(t, node), order)
  {
    if order != [] {
      var front, last := order[..|order| - 1], order[|order| - 1];
      WithdrawNodePassed(t, node, front);
      NodeVisited(t, WithdrawNode(t, node, front).table, node, front, last);
      assert order == front + [last];
    }
  }

  lemma WithdrawRelayGives(t: Table, node: NodeId, order: seq<Pair>)
    requires Covers(t, node, order)
    ensures WithdrawRelay(t, node, order).table == RelayGone(t, node)
  {
    WithdrawRelayPassed(t, node, order);
    var m := WithdrawRelay(t, node, order).table;
    assert forall p :: p in m.sets <==> p in RelayGone(t, node).sets;
    assert m.sets == RelayGone(t, node).sets;
  }

  lemma WithdrawNodeGives(t: Table, node: NodeId, order: seq<Pair>)
    requires Enabled(t, Revoke(node, order))
    ensures WithdrawNode(t, node, order).table == NodeGone(t, node)
  {
    WithdrawNodePassed(t, node, order);
    var m := WithdrawNode(t, node, order).table;
    assert forall p :: p in m.sets <==> p in NodeGone(t, node).sets;
    assert m.sets == NodeGone(t, node).sets;
  }

  lemma WithdrawnSame(a: PathSet, b: PathSet, node: NodeId)
    requires SameSetButIds(a, b)
    ensures SameSetButIds(Withdrawn(a, node), Withdrawn(b, node)) && (Empties(a, node) <==> Empties(b, node))
  {
    UsingSame(a.candidates, b.candidates, node);
    NotUsingSame(a.candidates, b.candidates, node);
  }

  lemma GoneSame(s: Table, t: Table, node: NodeId)
    requires SameTable(s, t)
    ensures SameTable(RelayGone(s, node), RelayGone(t, node)) && SameTable(NodeGone(s, node), NodeGone(t, node))
  {
    forall p | p in s.sets ensures SameSetButIds(Withdrawn(s.sets[p], node), Withdrawn(t.sets[p], node))
        && (Empties(s.sets[p], node) <==> Empties(t.sets[p], node)) {
      WithdrawnSame(s.sets[p], t.sets[p], node);
    }
    assert forall p :: p in RelayGone(s, node).sets <==> p in RelayGone(t, node).sets;
    assert forall p :: p in NodeGone(s, node).sets <==> p in NodeGone(t, node).sets;
  }

  function AllGone(t: Table, dropped: seq<NodeId>): Table {
    if dropped == [] then t else RelayGone(AllGone(t, dropped[..|dropped| - 1]), dropped[|dropped| - 1])
  }

  lemma {:induction false} DropAllGives(t: Table, dropped: seq<NodeId>, drops: seq<seq<Pair>>)
    requires |dropped| == |drops| && DropsCover(t, dropped, drops)
    ensures DropAll(t, dropped, drops) == AllGone(t, dropped)
  {
    if dropped != [] {
      var front, fronts := dropped[..|dropped| - 1], drops[..|drops| - 1];
      DropAllGives(t, front, fronts);
      WithdrawRelayGives(DropAll(t, front, fronts), dropped[|dropped| - 1], drops[|drops| - 1]);
    }
  }

  lemma {:induction false} AllGoneSame(s: Table, t: Table, dropped: seq<NodeId>)
    requires SameTable(s, t)
    ensures SameTable(AllGone(s, dropped), AllGone(t, dropped))
  {
    if dropped != [] {
      var front := dropped[..|dropped| - 1];
      AllGoneSame(s, t, front);
      GoneSame(AllGone(s, front), AllGone(t, front), dropped[|dropped| - 1]);
    }
  }

  // ----- expansion -----

  lemma NeedSame(s: Table, t: Table, p: Pair, now: nat)
    requires SameTable(s, t)
    ensures Need(s, p, now) == Need(t, p, now)
    ensures p in s.sets ==> SameSetButIds(ExpandedSet(s.sets[p], Usable(s.relays, p), p.dest, now),
                                          ExpandedSet(t.sets[p], Usable(t.relays, p), p.dest, now))
  {
    if p in s.sets {
      NeedsSame(s.sets[p], t.sets[p], Usable(s.relays, p), now);
      ExpandedSame(s.sets[p], t.sets[p], Usable(s.relays, p), p.dest, 0, 0, now);
    }
  }

  lemma {:induction false} TotalSame(s: Table, t: Table, pairs: set<Pair>, now: nat)
    requires SameTable(s, t)
    ensures TotalNeed(s, pairs, now) == TotalNeed(t, pairs, now)
    decreases |pairs|
  {
    if pairs != {} {
      var p :| p in pairs;
      TotalNeedSplit(s, pairs, now, p);
      TotalNeedSplit(t, pairs, now, p);
      TotalSame(s, t, pairs - {p}, now);
      NeedSame(s, t, p, now);
    }
  }

  lemma SameThrough(a: PathSet, b: PathSet, x: PathSet, y: PathSet)
    requires SameSetButIds(a, x) && SameSetButIds(x, y) && SameSetButIds(b, y)
    ensures SameSetButIds(a, b)
  {}

  lemma ExpandSame(s: Table, t: Table, a: seq<Pair>, b: seq<Pair>, now: nat)
    requires SameTable(s, t) && Lists(a, s.sets.Keys) && Lists(b, t.sets.Keys)
    ensures SameTable(Expand(s, a, now).table, Expand(t, b, now).table)
  {
    ExpandPass(s, a, now);
    ExpandPass(t, b, now);
    assert PairsOf(a) == s.sets.Keys == PairsOf(b);
    TotalSame(s, t, s.sets.Keys, now);
    PassesSame(s, t, Expand(s, a, now).table, Expand(t, b, now).table, now);
  }

  lemma PassesSame(s: Table, t: Table, x: Table, y: Table, now: nat)
    requires SameTable(s, t) && PassDone(s, x, s.sets.Keys, now) && PassDone(t, y, t.sets.Keys, now)
    requires TotalNeed(s, s.sets.Keys, now) == TotalNeed(t, s.sets.Keys, now)
    ensures SameTable(x, y)
  {
    forall p | p in x.sets ensures SameSetButIds(x.sets[p], y.sets[p]) {
      NeedSame(s, t, p, now);
      SameThrough(x.sets[p], y.sets[p], ExpandedSet(s.sets[p], Usable(s.relays, p), p.dest, now),
          ExpandedSet(t.sets[p], Usable(t.relays, p), p.dest, now));
    }
  }

  // ----- the operations of a network -----

  /** The table before the expansion of a roster change. */
  function Narrowed(t: Table, roster: seq<NodeId>): Table {
    AllGone(t.(relays := roster), Dropped(t.relays, roster))
  }

  lemma RosterGives(t: Table, op: DomainOp)
    requires op.ApplyRoster? && Enabled(t, op)
    ensures RunFrom(t, Calls(t, op)).table == Expand(Narrowed(t, op.roster), op.order, op.now).table
    ensures Lists(op.order, Narrowed(t, op.roster).sets.Keys)
  {
    RosterCallsSplit(t, op);
    DropAllGives(t.(relays := op.roster), Dropped(t.relays, op.roster), op.drops);
  }

  /** The same operation, up to the orders of its passes. */
  ghost predicate SameOp(a: DomainOp, b: DomainOp) {
    match a
    case RequestPaths(_, _, _) => a == b
    case Revoke(node, _) => b.Revoke? && b.node == node
    case ApplyRoster(roster, _, _, now) => b.ApplyRoster? && b.roster == roster && b.now == now
  }

  lemma RevokeSame(s: Table, t: Table, node: NodeId, a: seq<Pair>, b: seq<Pair>)
    requires SameTable(s, t) && Enabled(s, Revoke(node, a)) && Enabled(t, Revoke(node, b))
    ensures SameTable(RunFrom(s, Calls(s, Revoke(node, a))).table, RunFrom(t, Calls(t, Revoke(node, b))).table)
  {
    RevokeRuns(s, node, a);
    RevokeRuns(t, node, b);
    WithdrawNodeGives(s, node, a);
    WithdrawNodeGives(t, node, b);
    GoneSame(s, t, node);
  }

  lemma RosterSame(s: Table, t: Table, a: DomainOp, b: DomainOp)
    requires SameTable(s, t) && a.ApplyRoster? && SameOp(a, b) && Enabled(s, a) && Enabled(t, b)
    ensures SameTable(RunFrom(s, Calls(s, a)).table, RunFrom(t, Calls(t, b)).table)
  {
    RosterGives(s, a);
    RosterGives(t, b);
    AllGoneSame(s.(relays := a.roster), t.(relays := a.roster), Dropped(s.relays, a.roster));
    ExpandSame(Narrowed(s, a.roster), Narrowed(t, a.roster), a.order, b.order, a.now);
  }

  /** The same operation keeps two tables equal up to path ids, whatever the orders. */
  lemma OperationSame(s: Table, t: Table, a: DomainOp, b: DomainOp)
    requires SameTable(s, t) && SameOp(a, b) && Enabled(s, a) && Enabled(t, b)
    ensures SameTable(RunFrom(s, Calls(s, a)).table, RunFrom(t, Calls(t, b)).table)
  {
    match a
    case RequestPaths(pair, max, now) =>
      OneCall(s, RequestOp(pair, max, now));
      OneCall(t, RequestOp(pair, max, now));
      RequestSame(s, t, pair, max, now);
    case Revoke(node, order) => RevokeSame(s, t, node, order, b.order);
    case ApplyRoster(_, _, _, _) => RosterSame(s, t, a, b);
  }
}
