/** The shape of stored path sets under requests, revocations and roster changes of one network. */
module PathShape {
  import opened PathModel
  import opened PathIds

  ghost predicate NoDuplicates(relays: seq<NodeId>) {
    forall i, j :: 0 <= i < j < |relays| ==> relays[i] != relays[j]
  }

  function Members(relays: seq<NodeId>): set<NodeId> {
    set r | r in relays
  }

  /** One direct path first, then one path per relay, through pairwise different relays that are neither end. */
  ghost predicate Shaped(cs: seq<PathCandidate>, pair: Pair, allowed: set<NodeId>)
    decreases |cs|
  {
    if |cs| == 0 then false
    else if |cs| == 1 then cs[0].hops == [pair.dest]
    else
      var front, last := cs[..|cs| - 1], cs[|cs| - 1];
      && Shaped(front, pair, allowed)
      && |last.hops| == 2 && last.hops[1] == pair.dest
      && last.hops[0] in allowed && last.hops[0] != pair.source && last.hops[0] != pair.dest
      && !HasFirstHop(front, last.hops[0])
  }

  ghost predicate ShapedSet(ps: PathSet, pair: Pair, allowed: set<NodeId>) {
    Shaped(ps.candidates, pair, allowed) && |ps.candidates| <= Clamp(ps.max)
  }

  ghost predicate AllShaped(t: Table, allowed: set<NodeId>) {
    forall p :: p in t.sets ==> ShapedSet(t.sets[p], p, allowed)
  }

  lemma HasFirstHopSnoc(cs: seq<PathCandidate>, c: PathCandidate, relay: NodeId)
    ensures HasFirstHop(cs + [c], relay) <==> HasFirstHop(cs, relay) || (c.hops != [] && c.hops[0] == relay)
  {
    var d := cs + [c];
    if HasFirstHop(cs, relay) {
      var i :| 0 <= i < |cs| && cs[i].hops != [] && cs[i].hops[0] == relay;
      assert d[i].hops != [] && d[i].hops[0] == relay;
    }
    if c.hops != [] && c.hops[0] == relay { assert d[|cs|].hops != [] && d[|cs|].hops[0] == relay; }
    if HasFirstHop(d, relay) {
      var i :| 0 <= i < |d| && d[i].hops != [] && d[i].hops[0] == relay;
      assert i < |cs| ==> cs[i].hops != [] && cs[i].hops[0] == relay;
    }
  }

  lemma ShapedSnoc(cs: seq<PathCandidate>, c: PathCandidate, pair: Pair, allowed: set<NodeId>)
    requires Shaped(cs, pair, allowed)
    requires |c.hops| == 2 && c.hops[1] == pair.dest
    requires c.hops[0] in allowed && c.hops[0] != pair.source && c.hops[0] != pair.dest
    requires !HasFirstHop(cs, c.hops[0])
    ensures Shaped(cs + [c], pair, allowed)
  {
    assert (cs + [c])[..|cs|] == cs;
  }

  lemma {:induction false} ShapedWider(cs: seq<PathCandidate>, pair: Pair, allowed: set<NodeId>, wider: set<NodeId>)
    requires Shaped(cs, pair, allowed) && allowed <= wider
    ensures Shaped(cs, pair, wider)
    decreases |cs|
  {
    if |cs| > 1 { ShapedWider(cs[..|cs| - 1], pair, allowed, wider); }
  }

  // ----- request -----

  lemma {:induction false} UsableNoDuplicates(relays: seq<NodeId>, pair: Pair)
    requires NoDuplicates(relays)
    ensures NoDuplicates(Usable(relays, pair))
  {
    if relays != [] {
      UsableNoDuplicates(relays[1..], pair);
      var rest := Usable(relays[1..], pair);
      forall i | 0 <= i < |rest| ensures rest[i] != relays[0] {
        assert rest[i] in rest;
      }
    }
  }

  lemma {:induction false} FreshShaped(lastId: nat, usable: seq<NodeId>, pair: Pair, count: nat, now: nat,
      allowed: set<NodeId>)
    requires count <= |usable| && NoDuplicates(usable)
    requires forall r :: r in usable ==> r in allowed && r != pair.source && r != pair.dest
    ensures var r := FreshCandidates(lastId, usable, pair.dest, count, now);
            && Shaped(r, pair, allowed)
            && forall i :: count <= i < |usable| ==> !HasFirstHop(r, usable[i])
  {
    assert forall i :: 0 <= i < |usable| ==> usable[i] in usable;
    if count > 0 {
      var front := FreshCandidates(lastId, usable, pair.dest, count - 1, now);
      var last := Via(lastId + 1 + count, usable[count - 1], pair.dest, now);
      FreshShaped(lastId, usable, pair, count - 1, now, allowed);
      ShapedSnoc(front, last, pair, allowed);
      forall i | count <= i < |usable| ensures !HasFirstHop(front + [last], usable[i]) {
        HasFirstHopSnoc(front, last, usable[i]);
      }
    }
  }

  lemma RequestShaped(t: Table, pair: Pair, max: nat, now: nat)
    requires AllShaped(t, Members(t.relays)) && NoDuplicates(t.relays)
    ensures AllShaped(Request(t, pair, max, now).table, Members(t.relays))
  {
    if !(pair in t.sets && !Expired(t.sets[pair], now)) {
      UsableNoDuplicates(t.relays, pair);
      FreshShaped(t.lastId, Usable(t.relays, pair), pair, Min(|Usable(t.relays, pair)|, Clamp(max) - 1), now,
          Members(t.relays));
    }
  }

  // ----- withdrawal -----

  /** Consecutive ids from a start, all expiring at one time. */
  predicate Numbered(cs: seq<PathCandidate>, lastId: nat, expiry: nat) {
    forall i :: 0 <= i < |cs| ==> cs[i].pathId == lastId + 1 + i && cs[i].expiresAt == expiry
  }

  /** A live set is returned as it is; otherwise the new set is as full as budget and roster allow, one version on,
      with fresh ids and a lifetime of one TTL; no other set changes. */
  lemma RequestFills(t: Table, pair: Pair, max: nat, now: nat)
    ensures var t' := Request(t, pair, max, now).table;
            if Live(t, pair, now) then t' == t
            else
              && pair in t'.sets && t'.sets == t.sets[pair := t'.sets[pair]] && t'.relays == t.relays
              && t'.sets[pair].max == Clamp(max)
              && |t'.sets[pair].candidates| == Min(Clamp(max), 1 + |Usable(t.relays, pair)|)
              && t'.sets[pair].version == 1 + (if pair in t.sets then t.sets[pair].version else 0)
              && t'.lastId == t.lastId + |t'.sets[pair].candidates|
              && Numbered(t'.sets[pair].candidates, t.lastId, now + PATH_DEFAULT_TTL)
  {
    if !Live(t, pair, now) {
      var usable := Usable(t.relays, pair);
      FreshNumbered(t.lastId, usable, pair.dest, Min(|usable|, Clamp(max) - 1), now);
    }
  }

  lemma {:induction false} FreshNumbered(lastId: nat, usable: seq<NodeId>, dest: NodeId, count: nat, now: nat)
    requires count <= |usable|
    ensures Numbered(FreshCandidates(lastId, usable, dest, count, now), lastId, now + PATH_DEFAULT_TTL)
  {
    if count > 0 {
      FreshNumbered(lastId, usable, dest, count - 1, now);
      var front := FreshCandidates(lastId, usable, dest, count - 1, now);
      var last := Via(lastId + 1 + count, usable[count - 1], dest, now);
      assert |front| == count;
      forall i | 0 <= i < count + 1 ensures (front + [last])[i].pathId == lastId + 1 + i
          && (front + [last])[i].expiresAt == now + PATH_DEFAULT_TTL {
        if i < count { assert (front + [last])[i] == front[i]; }
      }
    }
  }

  lemma {:induction false} ShapedDestination(cs: seq<PathCandidate>, pair: Pair, allowed: set<NodeId>)
    requires Shaped(cs, pair, allowed)
    ensures NotUsing(cs, pair.dest) == []
    decreases |cs|
  {
    if |cs| > 1 {
      ShapedDestination(cs[..|cs| - 1], pair, allowed);
      assert cs[|cs| - 1].hops[1] == pair.dest;
    } else {
      assert cs[..0] == [] && cs[0].hops[0] == pair.dest;
    }
  }

  lemma {:induction false} NotUsingFirstHop(cs: seq<PathCandidate>, node: NodeId, relay: NodeId)
    requires HasFirstHop(NotUsing(cs, node), relay)
    ensures HasFirstHop(cs, relay)
  {
    if cs != [] {
      SnocForm(cs);
      var front, last := cs[..|cs| - 1], cs[|cs| - 1];
      HasFirstHopSnoc(front, last, relay);
      HasFirstHopSnoc(NotUsing(front, node), last, relay);
      if HasFirstHop(NotUsing(front, node), relay) { NotUsingFirstHop(front, node, relay); }
    }
  }

  lemma {:induction false} NotUsingShaped(cs: seq<PathCandidate>, pair: Pair, allowed: set<NodeId>, node: NodeId)
    requires Shaped(cs, pair, allowed) && node != pair.dest
    ensures Shaped(NotUsing(cs, node), pair, allowed - {node})
    decreases |cs|
  {
    var front, last := cs[..|cs| - 1], cs[|cs| - 1];
    if |cs| == 1 {
      assert front == [] && NotUsing(cs, node) == [last];
    } else {
      NotUsingShaped(front, pair, allowed, node);
      if node !in last.hops {
        assert last.hops[0] != node;
        if HasFirstHop(NotUsing(front, node), last.hops[0]) { NotUsingFirstHop(front, node, last.hops[0]); }
        ShapedSnoc(NotUsing(front, node), last, pair, allowed - {node});
      }
    }
  }

  lemma {:induction false} NoneUsing(cs: seq<PathCandidate>, node: NodeId)
    requires Using(cs, node) == []
    ensures NotUsing(cs, node) == cs
  {
    if cs != [] {
      SnocForm(cs);
      NoneUsing(cs[..|cs| - 1], node);
    }
  }

  /** What one set looks like after node has left it. */
  ghost predicate Cleaned(t: Table, pair: Pair, allowed: set<NodeId>, node: NodeId) {
    pair in t.sets ==> ShapedSet(t.sets[pair], pair, allowed - {node}) && pair.dest != node
  }

  /** Nothing but one set may have changed. */
  ghost predicate OnlyTouches(t: Table, t': Table, pair: Pair) {
    && t'.relays == t.relays
    && t'.sets.Keys <= t.sets.Keys
    && forall q :: q in t.sets && q != pair ==> q in t'.sets && t'.sets[q] == t.sets[q]
  }

  lemma WithdrawInSetShaped(t: Table, pair: Pair, node: NodeId, allowed: set<NodeId>)
    requires pair in t.sets ==> ShapedSet(t.sets[pair], pair, allowed)
    ensures var t' := WithdrawInSet(t, pair, node).table;
            Cleaned(t', pair, allowed, node) && OnlyTouches(t, t', pair)
  {
    if pair in t.sets {
      var cs := t.sets[pair].candidates;
      if node == pair.dest {
        ShapedDestination(cs, pair, allowed);
        if Using(cs, node) == [] { NoneUsing(cs, node); }
      } else {
        NotUsingShaped(cs, pair, allowed, node);
        if Using(cs, node) == [] { NoneUsing(cs, node); }
      }
    }
  }

  /** After a pass over `order`, the listed pairs are clean and the others untouched. */
  ghost predicate Swept(t: Table, t': Table, order: seq<Pair>, allowed: set<NodeId>, node: NodeId) {
    && t'.relays == t.relays
    && t'.sets.Keys <= t.sets.Keys
    && (forall q :: q in order ==> Cleaned(t', q, allowed, node))
    && (forall q :: q in t.sets && q !in order ==> q in t'.sets && t'.sets[q] == t.sets[q])
  }

  lemma {:induction false} CleanAgain(t: Table, q: Pair, allowed: set<NodeId>, node: NodeId)
    requires Cleaned(t, q, allowed, node) && q in t.sets
    ensures ShapedSet(t.sets[q], q, allowed)
  {
    ShapedWider(t.sets[q].candidates, q, allowed - {node}, allowed);
  }

  lemma SweptSet(t: Table, m: Table, q: Pair, front: seq<Pair>, allowed: set<NodeId>, node: NodeId)
    requires AllShaped(t, allowed) && Swept(t, m, front, allowed, node) && q in m.sets
    ensures ShapedSet(m.sets[q], q, allowed)
  {
    if q in front { CleanAgain(m, q, allowed, node); } else { assert q in t.sets; }
  }

  lemma SweptStep(t: Table, m: Table, t': Table, order: seq<Pair>, allowed: set<NodeId>, node: NodeId)
    requires order != []
    requires Swept(t, m, order[..|order| - 1], allowed, node)
    requires Cleaned(t', order[|order| - 1], allowed, node) && OnlyTouches(m, t', order[|order| - 1])
    ensures Swept(t, t', order, allowed, node)
  {
    var front, last := order[..|order| - 1], order[|order| - 1];
    assert order == front + [last];
    forall q | q in order ensures Cleaned(t', q, allowed, node) {
      if q != last { assert q in front && Cleaned(m, q, allowed, node); }
    }
  }

  lemma {:induction false} WithdrawRelaySwept(t: Table, node: NodeId, order: seq<Pair>, allowed: set<NodeId>)
    requires AllShaped(t, allowed)
    ensures Swept(t, WithdrawRelay(t, node, order).table, order, allowed, node)
  {
    if order != [] {
      var front, last := order[..|order| - 1], order[|order| - 1];
      WithdrawRelaySwept(t, node, front, allowed);
      var m := WithdrawRelay(t, node, front).table;
      if last in m.sets { SweptSet(t, m, last, front, allowed, node); }
      WithdrawInSetShaped(m, last, node, allowed);
      SweptStep(t, m, WithdrawRelay(t, node, order).table, order, allowed, node);
    }
  }

  /** Removing a set with node as an end, or the candidates through node. */
  lemma WithdrawNodeAtShaped(t: Table, pair: Pair, node: NodeId, allowed: set<NodeId>)
    requires pair in t.sets ==> ShapedSet(t.sets[pair], pair, allowed)
    ensures var t' := WithdrawNodeAt(t, pair, node).table;
            Cleaned(t', pair, allowed, node) && OnlyTouches(t, t', pair)
  {
    WithdrawInSetShaped(t, pair, node, allowed);
  }

  lemma {:induction false} WithdrawNodeSwept(t: Table, node: NodeId, order: seq<Pair>, allowed: set<NodeId>)
    requires AllShaped(t, allowed)
    ensures Swept(t, WithdrawNode(t, node, order).table, order, allowed, node)
    ensures forall q :: q in order && q.source == node ==> q !in WithdrawNode(t, node, order).table.sets
  {
    if order != [] {
      var front, last := order[..|order| - 1], order[|order| - 1];
      WithdrawNodeSwept(t, node, front, allowed);
      var m := WithdrawNode(t, node, front).table;
      if last in m.sets { SweptSet(t, m, last, front, allowed, node); }
      WithdrawNodeAtShaped(m, last, node, allowed);
      SweptStep(t, m, WithdrawNode(t, node, order).table, order, allowed, node);
      assert order == front + [last];
    }
  }

  /** Once every set through node has been swept, no set mentions it as relay or destination. */
  lemma SweptShaped(t: Table, t': Table, order: seq<Pair>, allowed: set<NodeId>, node: NodeId)
    requires AllShaped(t, allowed) && Swept(t, t', order, allowed, node)
    requires forall q :: q in t.sets && Using(t.sets[q].candidates, node) != [] ==> q in order
    ensures AllShaped(t', allowed - {node})
    ensures forall q :: q in t'.sets ==> q.dest != node
  {
    forall q | q in t'.sets
      ensures ShapedSet(t'.sets[q], q, allowed - {node}) && q.dest != node
    {
      if q in order {
        assert Cleaned(t', q, allowed, node);
      } else {
        var cs := t.sets[q].candidates;
        NoneUsing(cs, node);
        if q.dest == node { ShapedDestination(cs, q, allowed); }
        NotUsingShaped(cs, q, allowed, node);
      }
    }
  }

  // ----- expansion -----

  function Relays(cs: seq<PathCandidate>): set<NodeId>
    decreases |cs|
  {
    if |cs| <= 1 || cs[|cs| - 1].hops == [] then {} else Relays(cs[..|cs| - 1]) + {cs[|cs| - 1].hops[0]}
  }

  lemma {:induction false} RelayHop(cs: seq<PathCandidate>, pair: Pair, allowed: set<NodeId>, r: NodeId)
    requires Shaped(cs, pair, allowed)
    ensures HasFirstHop(cs, r) <==> r in Relays(cs) || r == pair.dest
    decreases |cs|
  {
    var front, last := cs[..|cs| - 1], cs[|cs| - 1];
    SnocForm(cs);
    if |cs| > 1 { RelayHop(front, pair, allowed, r); }
    HasFirstHopSnoc(front, last, r);
  }

  lemma {:induction false} RelaysCount(cs: seq<PathCandidate>, pair: Pair, allowed: set<NodeId>)
    requires Shaped(cs, pair, allowed)
    ensures |Relays(cs)| == |cs| - 1
    ensures Relays(cs) <= allowed - {pair.source, pair.dest}
    decreases |cs|
  {
    if |cs| > 1 {
      RelaysCount(cs[..|cs| - 1], pair, allowed);
      RelayHop(cs[..|cs| - 1], pair, allowed, cs[|cs| - 1].hops[0]);
    }
  }

  lemma {:induction false} MembersCount(relays: seq<NodeId>)
    requires NoDuplicates(relays)
    ensures |Members(relays)| == |relays|
  {
    if relays == [] {
      assert Members(relays) == {};
    } else {
      MembersCount(relays[1..]);
      assert Members(relays) == {relays[0]} + Members(relays[1..]);
    }
  }

  lemma SubsetCount(a: set<NodeId>, b: set<NodeId>)
    requires a <= b
    ensures |a| <= |b| && (|a| == |b| ==> a == b)
  {
    var rest := b - a;
    assert b == a + rest;
  }

  /** A well-shaped set whose relays are all in the roster is kept as it is. */
  lemma {:induction false} ShapedKept(cs: seq<PathCandidate>, pair: Pair, allowed: set<NodeId>, usable: seq<NodeId>)
    requires Shaped(cs, pair, allowed)
    requires forall r :: r in allowed && r != pair.source && r != pair.dest ==> r in usable
    ensures DirectOnly(cs) != [] && DirectOnly(cs) + KeptRelays(cs, usable) == cs
    ensures DirectOnly(cs) == cs[..1]
    decreases |cs|
  {
    var front, last := cs[..|cs| - 1], cs[|cs| - 1];
    SnocForm(cs);
    if |cs| == 1 {
      assert front == [];
    } else {
      ShapedKept(front, pair, allowed, usable);
      assert DirectOnly(cs) == DirectOnly(front);
      assert KeptRelays(cs, usable) == KeptRelays(front, usable) + [last];
    }
  }

  lemma {:induction false} FillShaped(cs: seq<PathCandidate>, usable: seq<NodeId>, pair: Pair, budget: nat,
      lastId: nat, now: nat, allowed: set<NodeId>)
    requires Shaped(cs, pair, allowed) && |cs| <= budget
    requires forall r :: r in usable ==> r in allowed && r != pair.source && r != pair.dest
    ensures var r := Fill(cs, usable, pair.dest, budget, lastId, now);
            && Shaped(r, pair, allowed) && |r| <= budget
            && (|r| < budget ==> forall u :: u in usable ==> HasFirstHop(r, u))
            && (forall u :: HasFirstHop(cs, u) ==> HasFirstHop(r, u))
    decreases |usable|
  {
    if usable != [] && |cs| < budget {
      HeadAndTail(usable);
      if HasFirstHop(cs, usable[0]) {
        FillShaped(cs, usable[1..], pair, budget, lastId, now, allowed);
      } else {
        var c := Via(lastId + 1, usable[0], pair.dest, now);
        ShapedSnoc(cs, c, pair, allowed);
        forall u ensures HasFirstHop(cs + [c], u) <==> HasFirstHop(cs, u) || u == usable[0] {
          HasFirstHopSnoc(cs, c, u);
        }
        FillShaped(cs + [c], usable[1..], pair, budget, lastId + 1, now, allowed);
      }
    }
  }

  lemma HeadAndTail(s: seq<NodeId>)
    requires s != []
    ensures forall x :: x in s <==> x == s[0] || x in s[1..]
  {
    assert s == [s[0]] + s[1..];
  }

  /** All usable relays have their path. */
  ghost predicate AllHopped(cs: seq<PathCandidate>, pair: Pair, relays: seq<NodeId>) {
    forall u :: u in Usable(relays, pair) ==> HasFirstHop(cs, u)
  }

  /**
   * A shaped set over the usable relays that is at the budget, or has them all, has min(budget, 1 + relays) candidates.
   */
  lemma FullCount(cs: seq<PathCandidate>, pair: Pair, relays: seq<NodeId>, budget: nat)
    requires Shaped(cs, pair, Members(relays)) && NoDuplicates(relays)
    requires |cs| <= budget && (|cs| < budget ==> AllHopped(cs, pair, relays))
    ensures |cs| == Min(budget, 1 + |Usable(relays, pair)|)
  {
    RelaysAtMost(cs, pair, relays);
    if |cs| < budget { RelaysAll(cs, pair, relays); }
  }

  lemma RelaysAtMost(cs: seq<PathCandidate>, pair: Pair, relays: seq<NodeId>)
    requires Shaped(cs, pair, Members(relays)) && NoDuplicates(relays)
    ensures 1 <= |cs| <= 1 + |Usable(relays, pair)|
  {
    RelaysCount(cs, pair, Members(relays));
    UsableNoDuplicates(relays, pair);
    MembersCount(Usable(relays, pair));
    RelaysUsable(cs, pair, relays);
    SubsetCount(Relays(cs), Members(Usable(relays, pair)));
  }

  lemma RelaysAll(cs: seq<PathCandidate>, pair: Pair, relays: seq<NodeId>)
    requires Shaped(cs, pair, Members(relays)) && NoDuplicates(relays) && AllHopped(cs, pair, relays)
    ensures |cs| >= 1 + |Usable(relays, pair)|
  {
    RelaysCount(cs, pair, Members(relays));
    UsableNoDuplicates(relays, pair);
    MembersCount(Usable(relays, pair));
    UsableRelays(cs, pair, relays);
    SubsetCount(Members(Usable(relays, pair)), Relays(cs));
  }

  lemma RelaysUsable(cs: seq<PathCandidate>, pair: Pair, relays: seq<NodeId>)
    requires Shaped(cs, pair, Members(relays))
    ensures Relays(cs) <= Members(Usable(relays, pair))
  {
    RelaysCount(cs, pair, Members(relays));
  }

  lemma UsableRelays(cs: seq<PathCandidate>, pair: Pair, relays: seq<NodeId>)
    requires Shaped(cs, pair, Members(relays)) && AllHopped(cs, pair, relays)
    ensures Members(Usable(relays, pair)) <= Relays(cs)
  {
    forall u | u in Usable(relays, pair) ensures u in Relays(cs) { RelayHop(cs, pair, Members(relays), u); }
  }

  /** What expansion leaves of one set: ids kept, and as many candidates as budget and roster allow. */
  ghost predicate ExpandedWell(was: PathSet, now': PathSet, pair: Pair, relays: seq<NodeId>, now: nat) {
    && ShapedSet(now', pair, Members(relays))
    && now'.max == was.max
    && |was.candidates| <= |now'.candidates| && now'.candidates[..|was.candidates|] == was.candidates
    && (Expired(was, now) ==> now' == was)
    && (!Expired(was, now) ==> |now'.candidates| == Min(Clamp(was.max), 1 + |Usable(relays, pair)|))
  }

  lemma ExpandSetWell(ps: PathSet, pair: Pair, relays: seq<NodeId>, lastId: nat, now: nat)
    requires ShapedSet(ps, pair, Members(relays)) && NoDuplicates(relays)
    requires NeedsExpansion(ps, Usable(relays, pair), now)
    ensures var usable := Usable(relays, pair);
            && BaseAlloc(ps) == 0
            && KeptCandidates(ps, usable, pair.dest, lastId, now) == ps.candidates
            && ExpandedWell(ps, PathSet(ps.version + 1, ExpandedCandidates(ps, usable, pair.dest, lastId, now),
                ps.max), pair, relays, now)
  {
    var usable := Usable(relays, pair);
    ShapedKept(ps.candidates, pair, Members(relays), usable);
    FillShaped(ps.candidates, usable, pair, Clamp(ps.max), lastId, now, Members(relays));
    FullCount(ExpandedCandidates(ps, usable, pair.dest, lastId, now), pair, relays, Clamp(ps.max));
  }

  lemma UnexpandedWell(ps: PathSet, pair: Pair, relays: seq<NodeId>, now: nat)
    requires ShapedSet(ps, pair, Members(relays)) && NoDuplicates(relays)
    requires !NeedsExpansion(ps, Usable(relays, pair), now)
    ensures ExpandedWell(ps, ps, pair, relays, now)
  {
    if !Expired(ps, now) {
      var usable := Usable(relays, pair);
      forall u | u in usable ensures HasFirstHop(ps.candidates, u) {
        var i :| 0 <= i < |usable| && usable[i] == u;
      }
      FullCount(ps.candidates, pair, relays, Clamp(ps.max));
    }
  }

  /** One pass of expansion: every listed set expanded, the others as they were. */
  ghost predicate Expanded(t: Table, t': Table, order: seq<Pair>, now: nat) {
    && t'.sets.Keys == t.sets.Keys && t'.relays == t.relays
    && (forall q :: q in order && q in t.sets ==> ExpandedWell(t.sets[q], t'.sets[q], q, t.relays, now))
    && (forall q :: q in t.sets && q !in order ==> t'.sets[q] == t.sets[q])
  }

  lemma ExpandAtWell(t: Table, pair: Pair, now: nat)
    requires NoDuplicates(t.relays) && pair in t.sets && ShapedSet(t.sets[pair], pair, Members(t.relays))
    ensures Expanded(t, ExpandAt(t, pair, now).table, [pair], now)
  {
    var ps := t.sets[pair];
    if NeedsExpansion(ps, Usable(t.relays, pair), now) {
      ExpandSetWell(ps, pair, t.relays, t.lastId, now);
    } else {
      UnexpandedWell(ps, pair, t.relays, now);
    }
  }

  lemma ExpandedStep(t: Table, m: Table, t': Table, order: seq<Pair>, now: nat)
    requires order != [] && order[|order| - 1] !in order[..|order| - 1]
    requires Expanded(t, m, order[..|order| - 1], now) && Expanded(m, t', order[|order| - 1..], now)
    ensures Expanded(t, t', order, now)
  {
    var front, last := order[..|order| - 1], order[|order| - 1];
    assert order == front + [last] && order[|order| - 1..] == [last];
    forall q | q in order && q in t.sets
      ensures ExpandedWell(t.sets[q], t'.sets[q], q, t.relays, now)
    {
      if q == last {
        assert m.sets[q] == t.sets[q];
      } else {
        assert q in front && q !in order[|order| - 1..];
        assert t'.sets[q] == m.sets[q];
      }
    }
    forall q | q in t.sets && q !in order ensures t'.sets[q] == t.sets[q] {
      assert q !in order[|order| - 1..];
      assert t'.sets[q] == m.sets[q];
    }
  }

  /** A pass over pairwise different pairs expands each listed set once and leaves the others alone. */
  lemma {:induction false} ExpandWell(t: Table, order: seq<Pair>, now: nat)
    requires AllShaped(t, Members(t.relays)) && NoDuplicates(t.relays)
    requires forall i, j :: 0 <= i < j < |order| ==> order[i] != order[j]
    requires forall q :: q in order ==> q in t.sets
    ensures Expanded(t, Expand(t, order, now).table, order, now)
  {
    if order != [] {
      var front, last := order[..|order| - 1], order[|order| - 1];
      ExpandWell(t, front, now);
      assert last !in front && last in order;
      var m := Expand(t, front, now).table;
      assert m.sets[last] == t.sets[last];
      ExpandAtWell(m, last, now);
      assert order[|order| - 1..] == [last];
      ExpandedStep(t, m, Expand(t, order, now).table, order, now);
    }
  }
}
