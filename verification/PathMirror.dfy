/** A participant that replays the events queued for it holds the server's candidates of every pair it is an end of. */
module PathMirror {
  import opened PathModel
  import opened PathIds

  function Without(cs: seq<PathCandidate>, id: nat): (r: seq<PathCandidate>)
    ensures forall c :: c in r <==> c in cs && c.pathId != id
  {
    if cs == [] then []
    else
      var last := cs[|cs| - 1];
      var front := Without(cs[..|cs| - 1], id);
      if last.pathId == id then front else front + [last]
  }

  /** One event on the candidates held for a pair: an update replaces them, a withdrawal deletes one id. */
  function Act(held: seq<PathCandidate>, event: PathEvent, pair: Pair): seq<PathCandidate> {
    match event
    case Update(source, dest, ps) => if Pair(source, dest) == pair then ps.candidates else held
    case Withdraw(dest, id) => if dest == pair.dest then Without(held, id) else held
  }

  /** What a node holds for a pair after the events of its queue. */
  function Replay(events: seq<PathEvent>, pair: Pair): seq<PathCandidate> {
    if events == [] then [] else Act(Replay(events[..|events| - 1], pair), events[|events| - 1], pair)
  }

  /** The same over the pushes to all nodes, starting from what is already held. */
  function ReplayFrom(held: seq<PathCandidate>, pushes: seq<Push>, node: NodeId, pair: Pair): seq<PathCandidate> {
    if pushes == [] then held
    else
      var before := ReplayFrom(held, pushes[..|pushes| - 1], node, pair);
      var last := pushes[|pushes| - 1];
      if last.node == node then Act(before, last.event, pair) else before
  }

  function EventsFor(pushes: seq<Push>, node: NodeId): seq<PathEvent> {
    if pushes == [] then []
    else
      var front := EventsFor(pushes[..|pushes| - 1], node);
      if pushes[|pushes| - 1].node == node then front + [pushes[|pushes| - 1].event] else front
  }

  lemma {:induction false} ReplayOfEvents(pushes: seq<Push>, node: NodeId, pair: Pair)
    ensures Replay(EventsFor(pushes, node), pair) == ReplayFrom([], pushes, node, pair)
  {
    if pushes != [] {
      var front := pushes[..|pushes| - 1];
      ReplayOfEvents(front, node, pair);
      var e := EventsFor(front, node) + [pushes[|pushes| - 1].event];
      assert e[..|e| - 1] == EventsFor(front, node);
    }
  }

  lemma {:induction false} ReplayConcat(held: seq<PathCandidate>, a: seq<Push>, b: seq<Push>, node: NodeId, pair: Pair)
    ensures ReplayFrom(held, a + b, node, pair) == ReplayFrom(ReplayFrom(held, a, node, pair), b, node, pair)
  {
    if b == [] {
      assert a + b == a;
    } else {
      ReplayConcat(held, a, b[..|b| - 1], node, pair);
      assert (a + b)[..|a + b| - 1] == a + b[..|b| - 1];
    }
  }

  // ----- broadcasts -----

  lemma {:induction false} WithoutAbsent(cs: seq<PathCandidate>, id: nat)
    requires !HasId(cs, id)
    ensures Without(cs, id) == cs
  {
    if cs != [] {
      SnocForm(cs);
      HasIdSnoc(cs[..|cs| - 1], cs[|cs| - 1], id);
      WithoutAbsent(cs[..|cs| - 1], id);
    }
  }

  lemma ActIdempotent(held: seq<PathCandidate>, event: PathEvent, pair: Pair)
    ensures Act(Act(held, event, pair), event, pair) == Act(held, event, pair)
  {
    if event.Withdraw? {
      var r := Without(held, event.pathId);
      assert forall i :: 0 <= i < |r| ==> r[i] in r;
      WithoutAbsent(r, event.pathId);
    }
  }

  lemma ReplayNext(held: seq<PathCandidate>, targets: seq<NodeId>, event: PathEvent, node: NodeId, pair: Pair)
    requires targets != []
    ensures var before := ReplayFrom(held, Broadcast(targets[..|targets| - 1], event), node, pair);
            ReplayFrom(held, Broadcast(targets, event), node, pair)
            == if targets[|targets| - 1] == node then Act(before, event, pair) else before
  {
    var b := Broadcast(targets, event);
    assert b[..|b| - 1] == Broadcast(targets[..|targets| - 1], event);
  }

  lemma {:induction false} ReplayBroadcast(held: seq<PathCandidate>, targets: seq<NodeId>, event: PathEvent,
      node: NodeId, pair: Pair)
    ensures ReplayFrom(held, Broadcast(targets, event), node, pair)
         == if node in targets then Act(held, event, pair) else held
  {
    if targets != [] {
      var front, last := targets[..|targets| - 1], targets[|targets| - 1];
      ReplayBroadcast(held, front, event, node, pair);
      ReplayNext(held, targets, event, node, pair);
      ActIdempotent(held, event, pair);
      LastOrFront(targets, node);
    }
  }

  lemma LastOrFront(targets: seq<NodeId>, node: NodeId)
    requires targets != []
    ensures node in targets <==> node in targets[..|targets| - 1] || node == targets[|targets| - 1]
  {
    assert targets == targets[..|targets| - 1] + [targets[|targets| - 1]];
  }

  predicate AtEnd(node: NodeId, pair: Pair) {
    node == pair.source || node == pair.dest
  }

  lemma ReplayUpdate(held: seq<PathCandidate>, targets: seq<NodeId>, pair: Pair, ps: PathSet, node: NodeId, q: Pair)
    requires pair.source in targets && pair.dest in targets && AtEnd(node, q)
    ensures ReplayFrom(held, Broadcast(targets, Update(pair.source, pair.dest, ps)), node, q)
         == if q == pair then ps.candidates else held
  {
    ReplayBroadcast(held, targets, Update(pair.source, pair.dest, ps), node, q);
  }

  /** A withdrawal reaches both ends of its pair, and does nothing to a list without the id. */
  lemma ReplayWithdraw(held: seq<PathCandidate>, pair: Pair, c: PathCandidate, node: NodeId, q: Pair)
    requires AtEnd(node, q)
    ensures q == pair ==> ReplayFrom(held, PushWithdraw(pair, c), node, q) == Without(held, c.pathId)
    ensures !HasId(held, c.pathId) ==> ReplayFrom(held, PushWithdraw(pair, c), node, q) == held
  {
    var targets := [pair.source, pair.dest] + c.hops;
    assert targets[0] == pair.source && targets[1] == pair.dest;
    ReplayBroadcast(held, Dedup(targets), Withdraw(pair.dest, c.pathId), node, q);
    if !HasId(held, c.pathId) { WithoutAbsent(held, c.pathId); }
  }

  lemma {:induction false} ReplayWithdrawForeign(held: seq<PathCandidate>, pair: Pair, cs: seq<PathCandidate>,
      node: NodeId, q: Pair)
    requires AtEnd(node, q)
    requires forall c :: c in cs ==> !HasId(held, c.pathId)
    ensures ReplayFrom(held, PushWithdrawAll(pair, cs), node, q) == held
  {
    if cs != [] {
      SnocForm(cs);
      var front, last := cs[..|cs| - 1], cs[|cs| - 1];
      ReplayWithdrawForeign(held, pair, front, node, q);
      ReplayConcat(held, PushWithdrawAll(pair, front), PushWithdraw(pair, last), node, q);
      ReplayWithdraw(held, pair, last, node, q);
    }
  }

  lemma {:induction false} ReplayWithdrawOwn(held: seq<PathCandidate>, pair: Pair, cs: seq<PathCandidate>, node: NodeId)
    requires AtEnd(node, pair)
    ensures var r := ReplayFrom(held, PushWithdrawAll(pair, cs), node, pair);
            forall c :: c in r ==> c in held && c !in cs
  {
    if cs != [] {
      SnocForm(cs);
      var front, last := cs[..|cs| - 1], cs[|cs| - 1];
      ReplayWithdrawOwn(held, pair, front, node);
      ReplayConcat(held, PushWithdrawAll(pair, front), PushWithdraw(pair, last), node, pair);
      ReplayWithdraw(ReplayFrom(held, PushWithdrawAll(pair, front), node, pair), pair, last, node, pair);
    }
  }

  lemma NoMembers(cs: seq<PathCandidate>)
    ensures cs == [] || cs[0] in cs
  {}

  /** Withdrawing a whole set empties the list at both ends. */
  lemma ReplayWithdrawWhole(pair: Pair, cs: seq<PathCandidate>, node: NodeId)
    requires AtEnd(node, pair)
    ensures ReplayFrom(cs, PushWithdrawAll(pair, cs), node, pair) == []
  {
    ReplayWithdrawOwn(cs, pair, cs, node);
    NoMembers(ReplayFrom(cs, PushWithdrawAll(pair, cs), node, pair));
  }

  // ----- the mirror -----

  function CandidatesOf(t: Table, pair: Pair): seq<PathCandidate> {
    if pair in t.sets then t.sets[pair].candidates else []
  }

  /** Replaying the pushes of an operation on the old lists gives the new ones, at both ends of every pair. */
  ghost predicate Carries(t: Table, o: Outcome) {
    forall n, q :: AtEnd(n, q) ==> ReplayFrom(CandidatesOf(t, q), o.pushes, n, q) == CandidatesOf(o.table, q)
  }

  lemma CarriesSequence(t: Table, o: Outcome, o': Outcome)
    requires Carries(t, o) && Carries(o.table, o')
    ensures Carries(t, Outcome(o'.table, o.pushes + o'.pushes))
  {
    forall n, q | AtEnd(n, q)
      ensures ReplayFrom(CandidatesOf(t, q), o.pushes + o'.pushes, n, q) == CandidatesOf(o'.table, q)
    {
      ReplayConcat(CandidatesOf(t, q), o.pushes, o'.pushes, n, q);
    }
  }

  lemma UpdateCarries(t: Table, pair: Pair, ps: PathSet, lastId: nat, targets: seq<NodeId>)
    requires pair.source in targets && pair.dest in targets
    ensures Carries(t, Outcome(t.(sets := t.sets[pair := ps], lastId := lastId),
            Broadcast(targets, Update(pair.source, pair.dest, ps))))
  {
    var o := Outcome(t.(sets := t.sets[pair := ps], lastId := lastId),
        Broadcast(targets, Update(pair.source, pair.dest, ps)));
    forall n, q | AtEnd(n, q)
      ensures ReplayFrom(CandidatesOf(t, q), o.pushes, n, q) == CandidatesOf(o.table, q)
    {
      ReplayUpdate(CandidatesOf(t, q), targets, pair, ps, n, q);
    }
  }

  lemma ParticipantsCarry(t: Table, pair: Pair, usable: seq<NodeId>, ps: PathSet, lastId: nat)
    ensures Carries(t, Outcome(t.(sets := t.sets[pair := ps], lastId := lastId), PushToParticipants(pair, usable, ps)))
  {
    var targets := [pair.source, pair.dest] + usable;
    assert targets[0] == pair.source && targets[1] == pair.dest;
    UpdateCarries(t, pair, ps, lastId, targets);
  }

  /** Ids withdrawn from one set are in no other. */
  lemma ForeignIds(t: Table, pair: Pair, q: Pair, c: PathCandidate)
    requires IdsOk(t) && pair in t.sets && c in t.sets[pair].candidates && q != pair
    ensures !HasId(CandidatesOf(t, q), c.pathId)
  {
    assert HasId(t.sets[pair].candidates, c.pathId);
  }

  lemma RemovalCarries(t: Table, pair: Pair)
    requires IdsOk(t) && pair in t.sets
    ensures Carries(t, Outcome(t.(sets := t.sets - {pair}), PushWithdrawAll(pair, t.sets[pair].candidates)))
  {
    var cs := t.sets[pair].candidates;
    var o := Outcome(t.(sets := t.sets - {pair}), PushWithdrawAll(pair, cs));
    forall n, q | AtEnd(n, q)
      ensures ReplayFrom(CandidatesOf(t, q), o.pushes, n, q) == CandidatesOf(o.table, q)
    {
      if q == pair {
        ReplayWithdrawWhole(pair, cs, n);
      } else {
        forall c | c in cs ensures !HasId(CandidatesOf(t, q), c.pathId) { ForeignIds(t, pair, q, c); }
        ReplayWithdrawForeign(CandidatesOf(t, q), pair, cs, n, q);
      }
    }
  }

  lemma {:induction false} AllUsing(cs: seq<PathCandidate>, node: NodeId)
    requires NotUsing(cs, node) == []
    ensures Using(cs, node) == cs
  {
    if cs != [] {
      SnocForm(cs);
      AllUsing(cs[..|cs| - 1], node);
    }
  }

  lemma WithdrawInSetCarries(t: Table, pair: Pair, node: NodeId)
    requires IdsOk(t)
    ensures Carries(t, WithdrawInSet(t, pair, node))
  {
    var o := WithdrawInSet(t, pair, node);
    if o != Outcome(t, []) {
      var was := t.sets[pair];
      if NotUsing(was.candidates, node) == [] {
        AllUsing(was.candidates, node);
        RemovalCarries(t, pair);
      } else {
        var ps := o.table.sets[pair];
        PartialCarries(t, pair, Using(was.candidates, node), ps,
            Dedup([pair.source, pair.dest] + AllHops(ps.candidates)));
      }
    }
  }

  /** Withdrawals of some candidates followed by an update with the rest. */
  lemma PartialCarries(t: Table, pair: Pair, withdrawn: seq<PathCandidate>, ps: PathSet, targets: seq<NodeId>)
    requires IdsOk(t) && pair in t.sets
    requires forall c :: c in withdrawn ==> c in t.sets[pair].candidates
    requires targets == Dedup([pair.source, pair.dest] + AllHops(ps.candidates))
    ensures Carries(t, Outcome(t.(sets := t.sets[pair := ps]),
                               PushWithdrawAll(pair, withdrawn)
                               + Broadcast(targets, Update(pair.source, pair.dest, ps))))
  {
    var ends := [pair.source, pair.dest] + AllHops(ps.candidates);
    assert ends[0] == pair.source && ends[1] == pair.dest;
    var first := PushWithdrawAll(pair, withdrawn);
    var second := Broadcast(targets, Update(pair.source, pair.dest, ps));
    var o := Outcome(t.(sets := t.sets[pair := ps]), first + second);
    forall n, q | AtEnd(n, q)
      ensures ReplayFrom(CandidatesOf(t, q), o.pushes, n, q) == CandidatesOf(o.table, q)
    {
      var held := CandidatesOf(t, q);
      ReplayConcat(held, first, second, n, q);
      ReplayUpdate(ReplayFrom(held, first, n, q), targets, pair, ps, n, q);
      if q != pair {
        forall c | c in withdrawn ensures !HasId(held, c.pathId) { ForeignIds(t, pair, q, c); }
        ReplayWithdrawForeign(held, pair, withdrawn, n, q);
      }
    }
  }

  lemma WithdrawNodeAtCarries(t: Table, pair: Pair, node: NodeId)
    requires IdsOk(t)
    ensures Carries(t, WithdrawNodeAt(t, pair, node))
  {
    if pair in t.sets { RemovalCarries(t, pair); }
    WithdrawInSetCarries(t, pair, node);
  }

  lemma RequestCarries(t: Table, pair: Pair, max: nat, now: nat)
    ensures Carries(t, Request(t, pair, max, now))
  {
    var o := Request(t, pair, max, now);
    ParticipantsCarry(t, pair, Usable(t.relays, pair), o.table.sets[pair], o.table.lastId);
    if pair in t.sets && !Expired(t.sets[pair], now) {
      assert t.sets[pair := t.sets[pair]] == t.sets;
    }
  }

  lemma ExpandAtCarries(t: Table, pair: Pair, now: nat)
    ensures Carries(t, ExpandAt(t, pair, now))
  {
    var o := ExpandAt(t, pair, now);
    if pair in t.sets && NeedsExpansion(t.sets[pair], Usable(t.relays, pair), now) {
      ParticipantsCarry(t, pair, Usable(t.relays, pair), o.table.sets[pair], o.table.lastId);
    }
  }

  lemma {:induction false} WithdrawNodeCarries(t: Table, node: NodeId, order: seq<Pair>)
    requires IdsOk(t)
    ensures Carries(t, WithdrawNode(t, node, order))
  {
    if order != [] {
      var front, last := order[..|order| - 1], order[|order| - 1];
      WithdrawNodeCarries(t, node, front);
      WithdrawNodeIds(t, node, front);
      var o := WithdrawNode(t, node, front);
      WithdrawNodeAtCarries(o.table, last, node);
      CarriesSequence(t, o, WithdrawNodeAt(o.table, last, node));
    }
  }

  lemma {:induction false} WithdrawRelayCarries(t: Table, node: NodeId, order: seq<Pair>)
    requires IdsOk(t)
    ensures Carries(t, WithdrawRelay(t, node, order))
  {
    if order != [] {
      var front, last := order[..|order| - 1], order[|order| - 1];
      WithdrawRelayCarries(t, node, front);
      WithdrawRelayIds(t, node, front);
      var o := WithdrawRelay(t, node, front);
      WithdrawInSetCarries(o.table, last, node);
      CarriesSequence(t, o, WithdrawInSet(o.table, last, node));
    }
  }

  lemma {:induction false} ExpandCarries(t: Table, order: seq<Pair>, now: nat)
    ensures Carries(t, Expand(t, order, now))
  {
    if order != [] {
      var front, last := order[..|order| - 1], order[|order| - 1];
      ExpandCarries(t, front, now);
      var o := Expand(t, front, now);
      ExpandAtCarries(o.table, last, now);
      CarriesSequence(t, o, ExpandAt(o.table, last, now));
    }
  }

  // ----- whole runs -----

  /** One call on the path service; `order` is the order the hash map listed the pairs in. */
  datatype Op =
    | RequestOp(pair: Pair, max: nat, now: nat)
    | WithdrawNodeOp(node: NodeId, order: seq<Pair>)
    | WithdrawRelayOp(node: NodeId, order: seq<Pair>)
    | ExpandOp(order: seq<Pair>, now: nat)
    | SetRelaysOp(relays: seq<NodeId>)

  function Step(t: Table, op: Op): Outcome {
    match op
    case RequestOp(pair, max, now) => Request(t, pair, max, now)
    case WithdrawNodeOp(node, order) => WithdrawNode(t, node, order)
    case WithdrawRelayOp(node, order) => WithdrawRelay(t, node, order)
    case ExpandOp(order, now) => Expand(t, order, now)
    case SetRelaysOp(relays) => Outcome(t.(relays := relays), [])
  }

  const EMPTY: Table := Table(map[], 0, [])

  function RunFrom(t: Table, ops: seq<Op>): Outcome {
    if ops == [] then Outcome(t, [])
    else
      var o := RunFrom(t, ops[..|ops| - 1]);
      var o' := Step(o.table, ops[|ops| - 1]);
      Outcome(o'.table, o.pushes + o'.pushes)
  }

  function Run(ops: seq<Op>): Outcome {
    RunFrom(EMPTY, ops)
  }

  lemma StepCarries(t: Table, op: Op)
    requires IdsOk(t)
    ensures Carries(t, Step(t, op))
    ensures IdsOk(Step(t, op).table) && IdsFresh(t, Step(t, op).table)
  {
    match op
    case RequestOp(pair, max, now) => RequestCarries(t, pair, max, now); RequestIds(t, pair, max, now);
    case WithdrawNodeOp(node, order) => WithdrawNodeCarries(t, node, order); WithdrawNodeIds(t, node, order);
    case WithdrawRelayOp(node, order) => WithdrawRelayCarries(t, node, order); WithdrawRelayIds(t, node, order);
    case ExpandOp(order, now) => ExpandCarries(t, order, now); ExpandIds(t, order, now);
    case SetRelaysOp(relays) =>
  }

  lemma {:induction false} RunFromCarries(t: Table, ops: seq<Op>)
    requires IdsOk(t)
    ensures Carries(t, RunFrom(t, ops))
    ensures IdsOk(RunFrom(t, ops).table) && IdsFresh(t, RunFrom(t, ops).table)
  {
    if ops != [] {
      var o := RunFrom(t, ops[..|ops| - 1]);
      RunFromCarries(t, ops[..|ops| - 1]);
      StepCarries(o.table, ops[|ops| - 1]);
      CarriesSequence(t, o, Step(o.table, ops[|ops| - 1]));
      FreshTransitive(t, o.table, RunFrom(t, ops).table);
    }
  }

  lemma {:induction false} RunFromConcat(t: Table, a: seq<Op>, b: seq<Op>)
    ensures RunFrom(t, a + b).table == RunFrom(RunFrom(t, a).table, b).table
  {
    if b == [] {
      assert a + b == a;
    } else {
      RunFromConcat(t, a, b[..|b| - 1]);
      assert (a + b)[..|a + b| - 1] == a + b[..|b| - 1];
    }
  }

  /**
   * After every run, replaying the events pushed to a node rebuilds the server's candidates of each pair it is an end
   * of.
   */
  lemma RunMirrored(ops: seq<Op>, node: NodeId, pair: Pair)
    requires AtEnd(node, pair)
    ensures Replay(EventsFor(Run(ops).pushes, node), pair) == CandidatesOf(Run(ops).table, pair)
  {
    RunFromCarries(EMPTY, ops);
    ReplayOfEvents(Run(ops).pushes, node, pair);
    assert ReplayFrom(CandidatesOf(EMPTY, pair), Run(ops).pushes, node, pair) == CandidatesOf(Run(ops).table, pair);
  }

  /** No two candidates of a reachable table share an id, and a later table never shows again an id that had left. */
  lemma RunIdsNeverReissued(ops: seq<Op>, more: seq<Op>)
    ensures IdsOk(Run(ops).table)
    ensures IdsFresh(Run(ops).table, Run(ops + more).table)
  {
    RunFromCarries(EMPTY, ops);
    RunFromConcat(EMPTY, ops, more);
    RunFromCarries(Run(ops).table, more);
  }
}
