/** Path ids: handed out once, distinct across the whole table, whatever the operations and the relay lists are. */
module PathIds {
  import opened PathModel

  predicate HasId(cs: seq<PathCandidate>, id: int) {
    exists i :: 0 <= i < |cs| && cs[i].pathId == id
  }

  predicate DistinctIds(cs: seq<PathCandidate>) {
    cs == [] || (DistinctIds(cs[..|cs| - 1]) && !HasId(cs[..|cs| - 1], cs[|cs| - 1].pathId))
  }

  /** Ids lie in 1..lastId and no two candidates of the table share one. */
  ghost predicate IdsOk(t: Table) {
    && (forall p :: p in t.sets ==> DistinctIds(t.sets[p].candidates))
    && (forall p, id :: p in t.sets && HasId(t.sets[p].candidates, id) ==> 0 < id <= t.lastId)
    && (forall p, q, id ::
          p in t.sets && q in t.sets && HasId(t.sets[p].candidates, id) && HasId(t.sets[q].candidates, id) ==> p == q)
  }

  /** Every id of the later table was in the earlier one or is above all ids it ever issued. */
  ghost predicate IdsFresh(t: Table, t': Table) {
    && t.lastId <= t'.lastId
    && forall p, id :: p in t'.sets && HasId(t'.sets[p].candidates, id) ==>
                         (p in t.sets && HasId(t.sets[p].candidates, id)) || t.lastId < id
  }

  lemma HasIdSnoc(cs: seq<PathCandidate>, c: PathCandidate, id: int)
    ensures HasId(cs + [c], id) <==> HasId(cs, id) || c.pathId == id
  {
    var d := cs + [c];
    if HasId(cs, id) {
      var i :| 0 <= i < |cs| && cs[i].pathId == id;
      assert d[i].pathId == id;
    }
    if c.pathId == id { assert d[|cs|].pathId == id; }
    if HasId(d, id) {
      var i :| 0 <= i < |d| && d[i].pathId == id;
      assert i < |cs| ==> cs[i].pathId == id;
    }
  }

  lemma DistinctSnoc(cs: seq<PathCandidate>, c: PathCandidate)
    ensures DistinctIds(cs + [c]) <==> DistinctIds(cs) && !HasId(cs, c.pathId)
  {
    assert (cs + [c])[..|cs|] == cs;
  }

  lemma Singleton(c: PathCandidate)
    ensures DistinctIds([c]) && forall id :: HasId([c], id) <==> c.pathId == id
  {
    DistinctSnoc([], c);
    assert [] + [c] == [c];
    forall id ensures HasId([c], id) <==> c.pathId == id { HasIdSnoc([], c, id); }
  }

  lemma SnocForm(cs: seq<PathCandidate>)
    requires cs != []
    ensures cs == cs[..|cs| - 1] + [cs[|cs| - 1]]
  {}

  lemma {:induction false} HasIdConcat(a: seq<PathCandidate>, b: seq<PathCandidate>, id: int)
    ensures HasId(a + b, id) <==> HasId(a, id) || HasId(b, id)
  {
    if b == [] {
      assert a + b == a;
    } else {
      SnocForm(b);
      var front, last := b[..|b| - 1], b[|b| - 1];
      HasIdConcat(a, front, id);
      HasIdSnoc(front, last, id);
      HasIdSnoc(a + front, last, id);
      assert a + b == a + front + [last];
    }
  }

  lemma {:induction false} DistinctConcat(a: seq<PathCandidate>, b: seq<PathCandidate>)
    requires DistinctIds(a) && DistinctIds(b)
    requires forall id :: !(HasId(a, id) && HasId(b, id))
    ensures DistinctIds(a + b)
  {
    if b == [] {
      assert a + b == a;
    } else {
      SnocForm(b);
      var front, last := b[..|b| - 1], b[|b| - 1];
      forall id ensures HasId(front, id) ==> HasId(b, id) { HasIdSnoc(front, last, id); }
      HasIdSnoc(front, last, last.pathId);
      DistinctConcat(a, front);
      HasIdConcat(a, front, last.pathId);
      DistinctSnoc(a + front, last);
      assert a + b == a + front + [last];
    }
  }

  // ----- replacing or removing one set -----

  lemma ReplaceSet(t: Table, p: Pair, ps: PathSet, lastId: nat)
    requires IdsOk(t) && t.lastId <= lastId
    requires DistinctIds(ps.candidates)
    requires forall id :: HasId(ps.candidates, id) ==>
                            (p in t.sets && HasId(t.sets[p].candidates, id)) || t.lastId < id <= lastId
    ensures var t' := t.(sets := t.sets[p := ps], lastId := lastId); IdsOk(t') && IdsFresh(t, t')
  {}

  lemma RemoveSet(t: Table, p: Pair)
    requires IdsOk(t)
    ensures var t' := t.(sets := t.sets - {p}); IdsOk(t') && IdsFresh(t, t')
  {}

  // ----- the lists the operations build -----

  lemma {:induction false} FreshShape(lastId: nat, usable: seq<NodeId>, dest: NodeId, count: nat, now: nat)
    requires count <= |usable|
    ensures var r := FreshCandidates(lastId, usable, dest, count, now);
            && DistinctIds(r)
            && forall id :: HasId(r, id) ==> lastId < id <= lastId + 1 + count
  {
    if count == 0 {
      Singleton(Direct(lastId + 1, dest, now));
    } else {
      var front := FreshCandidates(lastId, usable, dest, count - 1, now);
      var last := Via(lastId + 1 + count, usable[count - 1], dest, now);
      FreshShape(lastId, usable, dest, count - 1, now);
      DistinctSnoc(front, last);
      forall id ensures HasId(front + [last], id) <==> HasId(front, id) || last.pathId == id {
        HasIdSnoc(front, last, id);
      }
    }
  }

  lemma {:induction false} NotUsingIds(cs: seq<PathCandidate>, node: NodeId)
    requires DistinctIds(cs)
    ensures DistinctIds(NotUsing(cs, node))
    ensures forall id :: HasId(NotUsing(cs, node), id) ==> HasId(cs, id)
  {
    if cs != [] {
      SnocForm(cs);
      var front, last := cs[..|cs| - 1], cs[|cs| - 1];
      NotUsingIds(front, node);
      DistinctSnoc(NotUsing(front, node), last);
      forall id ensures HasId(NotUsing(cs, node), id) ==> HasId(cs, id) {
        HasIdSnoc(front, last, id);
        HasIdSnoc(NotUsing(front, node), last, id);
      }
    }
  }

  lemma {:induction false} DirectOnlyIds(cs: seq<PathCandidate>)
    requires DistinctIds(cs)
    ensures DistinctIds(DirectOnly(cs))
    ensures forall id :: HasId(DirectOnly(cs), id) ==> HasId(cs, id)
  {
    if cs != [] {
      SnocForm(cs);
      var front, last := cs[..|cs| - 1], cs[|cs| - 1];
      DirectOnlyIds(front);
      DistinctSnoc(DirectOnly(front), last);
      forall id ensures HasId(DirectOnly(cs), id) ==> HasId(cs, id) {
        HasIdSnoc(front, last, id);
        HasIdSnoc(DirectOnly(front), last, id);
      }
    }
  }

  lemma {:induction false} KeptRelaysIds(cs: seq<PathCandidate>, usable: seq<NodeId>)
    requires DistinctIds(cs)
    ensures DistinctIds(KeptRelays(cs, usable))
    ensures forall id :: HasId(KeptRelays(cs, usable), id) ==> HasId(cs, id) && !HasId(DirectOnly(cs), id)
  {
    if cs != [] {
      SnocForm(cs);
      var front, last := cs[..|cs| - 1], cs[|cs| - 1];
      KeptRelaysIds(front, usable);
      DirectOnlyIds(front);
      DistinctSnoc(KeptRelays(front, usable), last);
      forall id ensures HasId(KeptRelays(cs, usable), id) ==> HasId(cs, id) && !HasId(DirectOnly(cs), id) {
        HasIdSnoc(front, last, id);
        HasIdSnoc(KeptRelays(front, usable), last, id);
        HasIdSnoc(DirectOnly(front), last, id);
      }
    }
  }

  lemma KeptIds(ps: PathSet, usable: seq<NodeId>, dest: NodeId, lastId: nat, now: nat)
    requires DistinctIds(ps.candidates)
    requires forall id :: HasId(ps.candidates, id) ==> id <= lastId
    ensures var r := KeptCandidates(ps, usable, dest, lastId, now);
            && DistinctIds(r)
            && forall id :: HasId(r, id) ==> HasId(ps.candidates, id) || lastId < id <= lastId + BaseAlloc(ps)
  {
    var base, kept := Base(ps, dest, lastId, now), KeptRelays(ps.candidates, usable);
    DirectOnlyIds(ps.candidates);
    KeptRelaysIds(ps.candidates, usable);
    Singleton(Direct(lastId + 1, dest, now));
    DistinctConcat(base, kept);
    forall id ensures HasId(base + kept, id) <==> HasId(base, id) || HasId(kept, id) { HasIdConcat(base, kept, id); }
  }

  lemma {:induction false} FillIds(cs: seq<PathCandidate>, usable: seq<NodeId>, dest: NodeId, budget: nat,
      lastId: nat, now: nat)
    requires DistinctIds(cs)
    requires forall id :: HasId(cs, id) ==> id <= lastId
    ensures var r := Fill(cs, usable, dest, budget, lastId, now);
            && DistinctIds(r)
            && forall id :: HasId(r, id) ==> HasId(cs, id) || lastId < id <= lastId + |r| - |cs|
    decreases |usable|
  {
    if usable != [] && |cs| < budget {
      if HasFirstHop(cs, usable[0]) {
        FillIds(cs, usable[1..], dest, budget, lastId, now);
      } else {
        var c := Via(lastId + 1, usable[0], dest, now);
        DistinctSnoc(cs, c);
        forall id ensures HasId(cs + [c], id) <==> HasId(cs, id) || c.pathId == id { HasIdSnoc(cs, c, id); }
        FillIds(cs + [c], usable[1..], dest, budget, lastId + 1, now);
      }
    }
  }

  // ----- every operation keeps the ids in order -----

  lemma RequestIds(t: Table, pair: Pair, max: nat, now: nat)
    requires IdsOk(t)
    ensures IdsOk(Request(t, pair, max, now).table) && IdsFresh(t, Request(t, pair, max, now).table)
  {
    if !(pair in t.sets && !Expired(t.sets[pair], now)) {
      var usable := Usable(t.relays, pair);
      var count := Min(|usable|, Clamp(max) - 1);
      FreshShape(t.lastId, usable, pair.dest, count, now);
      ReplaceSet(t, pair, Request(t, pair, max, now).table.sets[pair], t.lastId + 1 + count);
    }
  }

  lemma WithdrawInSetIds(t: Table, pair: Pair, node: NodeId)
    requires IdsOk(t)
    ensures IdsOk(WithdrawInSet(t, pair, node).table) && IdsFresh(t, WithdrawInSet(t, pair, node).table)
  {
    if pair in t.sets {
      NotUsingIds(t.sets[pair].candidates, node);
      RemoveSet(t, pair);
      var was := t.sets[pair];
      ReplaceSet(t, pair, PathSet(was.version + 1, NotUsing(was.candidates, node), was.max), t.lastId);
    }
  }

  lemma WithdrawNodeAtIds(t: Table, pair: Pair, node: NodeId)
    requires IdsOk(t)
    ensures IdsOk(WithdrawNodeAt(t, pair, node).table) && IdsFresh(t, WithdrawNodeAt(t, pair, node).table)
  {
    RemoveSet(t, pair);
    WithdrawInSetIds(t, pair, node);
  }

  lemma ExpandAtIds(t: Table, pair: Pair, now: nat)
    requires IdsOk(t)
    ensures IdsOk(ExpandAt(t, pair, now).table) && IdsFresh(t, ExpandAt(t, pair, now).table)
  {
    var usable := Usable(t.relays, pair);
    if pair in t.sets && NeedsExpansion(t.sets[pair], usable, now) {
      var was := t.sets[pair];
      KeptIds(was, usable, pair.dest, t.lastId, now);
      FillIds(KeptCandidates(was, usable, pair.dest, t.lastId, now), usable, pair.dest, Clamp(was.max),
          t.lastId + BaseAlloc(was), now);
      ReplaceSet(t, pair, ExpandAt(t, pair, now).table.sets[pair],
                 t.lastId + Allocated(was, usable, pair.dest, t.lastId, now));
    }
  }

  lemma FreshTransitive(a: Table, b: Table, c: Table)
    requires IdsFresh(a, b) && IdsFresh(b, c)
    ensures IdsFresh(a, c)
  {}

  lemma {:induction false} WithdrawNodeIds(t: Table, node: NodeId, order: seq<Pair>)
    requires IdsOk(t)
    ensures IdsOk(WithdrawNode(t, node, order).table) && IdsFresh(t, WithdrawNode(t, node, order).table)
  {
    if order != [] {
      var o := WithdrawNode(t, node, order[..|order| - 1]);
      WithdrawNodeIds(t, node, order[..|order| - 1]);
      WithdrawNodeAtIds(o.table, order[|order| - 1], node);
      FreshTransitive(t, o.table, WithdrawNode(t, node, order).table);
    }
  }

  lemma {:induction false} WithdrawRelayIds(t: Table, node: NodeId, order: seq<Pair>)
    requires IdsOk(t)
    ensures IdsOk(WithdrawRelay(t, node, order).table) && IdsFresh(t, WithdrawRelay(t, node, order).table)
  {
    if order != [] {
      var o := WithdrawRelay(t, node, order[..|order| - 1]);
      WithdrawRelayIds(t, node, order[..|order| - 1]);
      WithdrawInSetIds(o.table, order[|order| - 1], node);
      FreshTransitive(t, o.table, WithdrawRelay(t, node, order).table);
    }
  }

  lemma {:induction false} ExpandIds(t: Table, order: seq<Pair>, now: nat)
    requires IdsOk(t)
    ensures IdsOk(Expand(t, order, now).table) && IdsFresh(t, Expand(t, order, now).table)
  {
    if order != [] {
      var o := Expand(t, order[..|order| - 1], now);
      ExpandIds(t, order[..|order| - 1], now);
      ExpandAtIds(o.table, order[|order| - 1], now);
      FreshTransitive(t, o.table, Expand(t, order, now).table);
    }
  }
}
