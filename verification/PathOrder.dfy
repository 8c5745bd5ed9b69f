/** Roster expansion does not depend on the order in which the hash map lists the pairs. */
module PathOrder {
  import opened PathModel

  /** Equal up to path ids. */
  ghost predicate SameButIds(a: seq<PathCandidate>, b: seq<PathCandidate>) {
    |a| == |b| && forall i :: 0 <= i < |a| ==> a[i].(pathId := 0) == b[i].(pathId := 0)
  }

  ghost predicate SameSetButIds(a: PathSet, b: PathSet) {
    a.version == b.version && a.max == b.max && SameButIds(a.candidates, b.candidates)
  }

  lemma SameHops(a: seq<PathCandidate>, b: seq<PathCandidate>, relay: NodeId)
    requires SameButIds(a, b) && HasFirstHop(a, relay)
    ensures HasFirstHop(b, relay)
  {
    var i :| 0 <= i < |a| && a[i].hops != [] && a[i].hops[0] == relay;
    assert a[i].(pathId := 0) == b[i].(pathId := 0);
    assert b[i].hops == a[i].hops;
  }

  lemma {:induction false} FillIgnoresIds(a: seq<PathCandidate>, b: seq<PathCandidate>, usable: seq<NodeId>,
      dest: NodeId, budget: nat, idA: nat, idB: nat, now: nat)
    requires SameButIds(a, b)
    ensures SameButIds(Fill(a, usable, dest, budget, idA, now), Fill(b, usable, dest, budget, idB, now))
    decreases |usable|
  {
    if usable != [] && |a| < budget {
      var relay := usable[0];
      if HasFirstHop(a, relay) { SameHops(a, b, relay); }
      if HasFirstHop(b, relay) { SameHops(b, a, relay); }
      if HasFirstHop(a, relay) {
        FillIgnoresIds(a, b, usable[1..], dest, budget, idA, idB, now);
      } else {
        FillIgnoresIds(a + [Via(idA + 1, relay, dest, now)], b + [Via(idB + 1, relay, dest, now)],
                       usable[1..], dest, budget, idA + 1, idB + 1, now);
      }
    }
  }

  lemma ExpandedIgnoresIds(ps: PathSet, usable: seq<NodeId>, dest: NodeId, idA: nat, idB: nat, now: nat)
    ensures SameButIds(ExpandedCandidates(ps, usable, dest, idA, now), ExpandedCandidates(ps, usable, dest, idB, now))
    ensures Allocated(ps, usable, dest, idA, now) == Allocated(ps, usable, dest, idB, now)
  {
    var a, b := KeptCandidates(ps, usable, dest, idA, now), KeptCandidates(ps, usable, dest, idB, now);
    assert SameButIds(a, b);
    FillIgnoresIds(a, b, usable, dest, Clamp(ps.max), idA + BaseAlloc(ps), idB + BaseAlloc(ps), now);
  }

  /** The expansion of one set, with ids counted from zero. */
  function ExpandedSet(ps: PathSet, usable: seq<NodeId>, dest: NodeId, now: nat): PathSet {
    if NeedsExpansion(ps, usable, now)
    then PathSet(ps.version + 1, ExpandedCandidates(ps, usable, dest, 0, now), ps.max)
    else ps
  }

  /** The ids one pair takes. */
  function Need(t: Table, pair: Pair, now: nat): nat {
    if pair in t.sets && NeedsExpansion(t.sets[pair], Usable(t.relays, pair), now)
    then Allocated(t.sets[pair], Usable(t.relays, pair), pair.dest, 0, now)
    else 0
  }

  ghost function TotalNeed(t: Table, pairs: set<Pair>, now: nat): nat {
    if pairs == {} then 0
    else
      var p :| p in pairs;
      Need(t, p, now) + TotalNeed(t, pairs - {p}, now)
  }

  lemma {:induction false} TotalNeedSplit(t: Table, pairs: set<Pair>, now: nat, x: Pair)
    requires x in pairs
    ensures TotalNeed(t, pairs, now) == Need(t, x, now) + TotalNeed(t, pairs - {x}, now)
  {
    var p :| p in pairs && TotalNeed(t, pairs, now) == Need(t, p, now) + TotalNeed(t, pairs - {p}, now);
    if p != x {
      TotalNeedSplit(t, pairs - {p}, now, x);
      TotalNeedSplit(t, pairs - {x}, now, p);
      assert pairs - {p} - {x} == pairs - {x} - {p};
    }
  }

  /** The state of the table after a pass over `done`, up to ids. */
  ghost predicate PassDone(t: Table, t': Table, done: set<Pair>, now: nat) {
    && t'.sets.Keys == t.sets.Keys && t'.relays == t.relays
    && t'.lastId == t.lastId + TotalNeed(t, done, now)
    && (forall q :: q in t.sets && q !in done ==> t'.sets[q] == t.sets[q])
    && (forall q :: q in t.sets && q in done ==>
        SameSetButIds(t'.sets[q], ExpandedSet(t.sets[q], Usable(t.relays, q), q.dest, now)))
  }

  lemma PassStep(t: Table, m: Table, done: set<Pair>, pair: Pair, now: nat)
    requires PassDone(t, m, done, now) && pair !in done
    ensures PassDone(t, ExpandAt(m, pair, now).table, done + {pair}, now)
  {
    TotalNeedSplit(t, done + {pair}, now, pair);
    assert done + {pair} - {pair} == done;
    if pair in t.sets && NeedsExpansion(t.sets[pair], Usable(t.relays, pair), now) {
      ExpandedIgnoresIds(t.sets[pair], Usable(t.relays, pair), pair.dest, m.lastId, 0, now);
    }
  }

  function PairsOf(order: seq<Pair>): set<Pair> {
    set p | p in order
  }

  lemma {:induction false} ExpandPass(t: Table, order: seq<Pair>, now: nat)
    requires forall i, j :: 0 <= i < j < |order| ==> order[i] != order[j]
    ensures PassDone(t, Expand(t, order, now).table, PairsOf(order), now)
  {
    if order == [] {
      assert PairsOf(order) == {};
    } else {
      var front, last := order[..|order| - 1], order[|order| - 1];
      ExpandPass(t, front, now);
      assert order == front + [last];
      assert PairsOf(order) == PairsOf(front) + {last};
      PassStep(t, Expand(t, front, now).table, PairsOf(front), last, now);
    }
  }

  /** Two listings of the same pairs give the same table up to ids, and the same id counter. */
  lemma ExpansionOrderIndependent(t: Table, a: seq<Pair>, b: seq<Pair>, now: nat)
    requires Lists(a, t.sets.Keys) && Lists(b, t.sets.Keys)
    ensures var ta, tb := Expand(t, a, now).table, Expand(t, b, now).table;
            && ta.lastId == tb.lastId
            && ta.sets.Keys == tb.sets.Keys == t.sets.Keys
            && forall q :: q in t.sets ==> SameSetButIds(ta.sets[q], tb.sets[q])
  {
    ExpandPass(t, a, now);
    ExpandPass(t, b, now);
    assert PairsOf(a) == t.sets.Keys == PairsOf(b);
  }
}
