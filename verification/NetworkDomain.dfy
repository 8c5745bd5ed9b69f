/** One network: how requests, revocations and roster changes drive its path service. */
module NetworkDomain {
  import opened PathModel
  import opened PathIds
  import opened PathMirror
  import opened PathShape
  import PathService

  /** `order` and `drops` are the orders in which the hash map listed the pairs of each pass. */
  datatype DomainOp =
    | RequestPaths(pair: Pair, max: nat, now: nat)
    | Revoke(node: NodeId, order: seq<Pair>)
    | ApplyRoster(roster: seq<NodeId>, drops: seq<seq<Pair>>, order: seq<Pair>, now: nat)

  function Dropped(relays: seq<NodeId>, roster: seq<NodeId>): (r: seq<NodeId>)
    ensures forall x :: x in r <==> x in relays && x !in roster
  {
    if relays == [] then []
    else
      var front, last := Dropped(relays[..|relays| - 1], roster), relays[|relays| - 1];
      if last in roster then front else front + [last]
  }

  function Retain(relays: seq<NodeId>, node: NodeId): (r: seq<NodeId>)
    ensures forall x :: x in r <==> x in relays && x != node
  {
    if relays == [] then []
    else
      var front, last := Retain(relays[..|relays| - 1], node), relays[|relays| - 1];
      if last == node then front else front + [last]
  }

  function DropCalls(dropped: seq<NodeId>, drops: seq<seq<Pair>>): (r: seq<Op>)
    requires |dropped| == |drops|
  {
    if dropped == [] then []
    else DropCalls(dropped[..|dropped| - 1],
        drops[..|drops| - 1]) + [WithdrawRelayOp(dropped[|dropped| - 1], drops[|drops| - 1])]
  }

  /** The dropped relays withdrawn one after the other. */
  function DropAll(t: Table, dropped: seq<NodeId>, drops: seq<seq<Pair>>): Table
    requires |dropped| == |drops|
  {
    if dropped == [] then t
    else PathModel.WithdrawRelay(DropAll(t, dropped[..|dropped| - 1], drops[..|drops| - 1]), dropped[|dropped| - 1],
        drops[|drops| - 1]).table
  }

  lemma {:induction false} DropAllRuns(t: Table, dropped: seq<NodeId>, drops: seq<seq<Pair>>)
    requires |dropped| == |drops|
    ensures RunFrom(t, DropCalls(dropped, drops)).table == DropAll(t, dropped, drops)
  {
    if dropped != [] {
      DropAllRuns(t, dropped[..|dropped| - 1], drops[..|drops| - 1]);
      var calls := DropCalls(dropped, drops);
      assert calls[..|calls| - 1] == DropCalls(dropped[..|dropped| - 1], drops[..|drops| - 1]);
    }
  }

  /**
   * The path-service calls one operation makes: a revocation also leaves the roster, a new roster first withdraws, then
   * expands.
   */
  function Calls(t: Table, op: DomainOp): seq<Op>
    requires op.ApplyRoster? ==> |op.drops| == |Dropped(t.relays, op.roster)|
  {
    match op
    case RequestPaths(pair, max, now) => [RequestOp(pair, max, now)]
    case Revoke(node, order) =>
      if node in t.relays then [WithdrawNodeOp(node, order), SetRelaysOp(Retain(t.relays, node))]
      else [WithdrawNodeOp(node, order)]
    case ApplyRoster(roster, drops, order, now) =>
      [SetRelaysOp(roster)] + DropCalls(Dropped(t.relays, roster), drops) + [ExpandOp(order, now)]
  }

  // ----- which orders a pass can take -----

  ghost predicate Covers(t: Table, node: NodeId, order: seq<Pair>) {
    forall p :: p in t.sets && Using(t.sets[p].candidates, node) != [] ==> p in order
  }

  ghost predicate DropsCover(t: Table, dropped: seq<NodeId>, drops: seq<seq<Pair>>)
    requires |dropped| == |drops|
  {
    dropped == [] ||
    var front, fronts := dropped[..|dropped| - 1], drops[..|drops| - 1];
    && DropsCover(t, front, fronts)
    && Covers(DropAll(t, front, fronts), dropped[|dropped| - 1], drops[|drops| - 1])
  }

  /** Every pass lists the pairs it must visit. */
  ghost predicate Enabled(t: Table, op: DomainOp) {
    match op
    case RequestPaths(_, _, _) => true
    case Revoke(node, order) => forall p :: p in t.sets && Affected(t, p, node) ==> p in order
    case ApplyRoster(roster, drops, order, now) =>
      var dropped := Dropped(t.relays, roster);
      && |drops| == |dropped|
      && DropsCover(t.(relays := roster), dropped, drops)
      && Lists(order, DropAll(t.(relays := roster), dropped, drops).sets.Keys)
  }

  // ----- the invariant -----

  /** A new roster names no node twice. */
  ghost predicate DuplicateFree(op: DomainOp) {
    op.ApplyRoster? ==> NoDuplicates(op.roster)
  }

  ghost predicate DomainOk(t: Table) {
    AllShaped(t, Members(t.relays)) && NoDuplicates(t.relays) && IdsOk(t)
  }

  lemma {:induction false} RetainNoDuplicates(relays: seq<NodeId>, node: NodeId)
    requires NoDuplicates(relays)
    ensures NoDuplicates(Retain(relays, node))
    ensures Members(Retain(relays, node)) == Members(relays) - {node}
  {
    if relays != [] {
      var front, last := relays[..|relays| - 1], relays[|relays| - 1];
      RetainNoDuplicates(front, node);
      assert forall i :: 0 <= i < |Retain(front, node)| ==> Retain(front, node)[i] in Retain(front, node);
      assert relays == front + [last];
      assert last !in front;
    }
  }

  lemma {:induction false} DropsShaped(t: Table, dropped: seq<NodeId>, drops: seq<seq<Pair>>, allowed: set<NodeId>)
    requires |dropped| == |drops| && AllShaped(t, allowed) && DropsCover(t, dropped, drops)
    ensures var t' := DropAll(t, dropped, drops);
            AllShaped(t', allowed - Members(dropped)) && t'.relays == t.relays
  {
    if dropped == [] {
      assert allowed - Members(dropped) == allowed;
    } else {
      var front, fronts := dropped[..|dropped| - 1], drops[..|drops| - 1];
      var node, order := dropped[|dropped| - 1], drops[|drops| - 1];
      DropsShaped(t, front, fronts, allowed);
      var m := DropAll(t, front, fronts);
      WithdrawRelaySwept(m, node, order, allowed - Members(front));
      SweptShaped(m, PathModel.WithdrawRelay(m, node, order).table, order, allowed - Members(front), node);
      assert dropped == front + [node];
      assert allowed - Members(dropped) == allowed - Members(front) - {node};
    }
  }

  lemma ShapedIn(t: Table, allowed: set<NodeId>, wider: set<NodeId>)
    requires AllShaped(t, allowed) && allowed <= wider
    ensures AllShaped(t, wider)
  {
    forall p | p in t.sets ensures ShapedSet(t.sets[p], p, wider) {
      ShapedWider(t.sets[p].candidates, p, allowed, wider);
    }
  }

  lemma RosterCallsSplit(t: Table, op: DomainOp)
    requires op.ApplyRoster? && |op.drops| == |Dropped(t.relays, op.roster)|
    ensures var m := DropAll(t.(relays := op.roster), Dropped(t.relays, op.roster), op.drops);
            RunFrom(t, Calls(t, op)).table == Expand(m, op.order, op.now).table
  {
    var drops := DropCalls(Dropped(t.relays, op.roster), op.drops);
    assert Calls(t, op) == [SetRelaysOp(op.roster)] + drops + [ExpandOp(op.order, op.now)];
    ThreeParts(t, SetRelaysOp(op.roster), drops, ExpandOp(op.order, op.now));
    DropAllRuns(t.(relays := op.roster), Dropped(t.relays, op.roster), op.drops);
  }

  lemma ThreeParts(t: Table, first: Op, middle: seq<Op>, last: Op)
    ensures RunFrom(t, [first] + middle + [last]).table == Step(RunFrom(Step(t, first).table, middle).table, last).table
  {
    RunFromConcat(t, [first] + middle, [last]);
    RunFromConcat(t, [first], middle);
    OneCall(t, first);
    OneCall(RunFrom(t, [first] + middle).table, last);
  }

  lemma OneCall(t: Table, op: Op)
    ensures RunFrom(t, [op]).table == Step(t, op).table
  {
    assert [op][..0] == [];
  }

  /** A new roster: dropped relays leave every set, then each unexpired set is filled up. */
  lemma RosterShaped(t: Table, op: DomainOp)
    requires DomainOk(t) && op.ApplyRoster? && Enabled(t, op) && DuplicateFree(op)
    ensures var t' := RunFrom(t, Calls(t, op)).table;
            && t'.relays == op.roster && AllShaped(t', Members(op.roster))
            && forall p :: p in t'.sets && !Expired(t'.sets[p], op.now) ==>
                 |t'.sets[p].candidates| == Min(Clamp(t'.sets[p].max), 1 + |Usable(op.roster, p)|)
  {
    var dropped := Dropped(t.relays, op.roster);
    var t1 := t.(relays := op.roster);
    assert AllShaped(t1, Members(t.relays));
    DropsShaped(t1, dropped, op.drops, Members(t.relays));
    var m := DropAll(t1, dropped, op.drops);
    ShapedIn(m, Members(t.relays) - Members(dropped), Members(op.roster));
    ExpandWell(m, op.order, op.now);
    RosterCallsSplit(t, op);
    ExpandedShaped(m, Expand(m, op.order, op.now).table, op.order, op.now);
  }

  lemma ExpandedShaped(m: Table, t': Table, order: seq<Pair>, now: nat)
    requires Expanded(m, t', order, now) && Lists(order, m.sets.Keys)
    ensures AllShaped(t', Members(m.relays))
    ensures forall p :: p in t'.sets && !Expired(t'.sets[p], now) ==>
              |t'.sets[p].candidates| == Min(Clamp(t'.sets[p].max), 1 + |Usable(m.relays, p)|)
  {
    forall p | p in t'.sets
      ensures ShapedSet(t'.sets[p], p, Members(m.relays))
      ensures !Expired(t'.sets[p], now) ==>
              |t'.sets[p].candidates| == Min(Clamp(t'.sets[p].max), 1 + |Usable(m.relays, p)|)
    {
      assert p in order;
      assert ExpandedWell(m.sets[p], t'.sets[p], p, m.relays, now);
    }
  }

  ghost predicate Unpaired(t: Table, node: NodeId) {
    forall p :: p in t.sets ==> p.source != node && p.dest != node
  }

  lemma RevokeSwept(t: Table, node: NodeId, order: seq<Pair>)
    requires DomainOk(t) && Enabled(t, Revoke(node, order))
    ensures var m := PathModel.WithdrawNode(t, node, order).table;
            AllShaped(m, Members(t.relays) - {node}) && m.relays == t.relays && Unpaired(m, node)
  {
    WithdrawNodeSwept(t, node, order, Members(t.relays));
    var m := PathModel.WithdrawNode(t, node, order).table;
    SweptShaped(t, m, order, Members(t.relays), node);
    assert forall p :: p in m.sets ==> p in t.sets;
  }

  lemma RevokeRuns(t: Table, node: NodeId, order: seq<Pair>)
    ensures var m := PathModel.WithdrawNode(t, node, order).table;
            RunFrom(t, Calls(t, Revoke(node, order))).table
            == if node in t.relays then m.(relays := Retain(t.relays, node)) else m
  {
    OneCall(t, WithdrawNodeOp(node, order));
    if node in t.relays {
      var m := PathModel.WithdrawNode(t, node, order).table;
      RunFromConcat(t, [WithdrawNodeOp(node, order)], [SetRelaysOp(Retain(t.relays, node))]);
      OneCall(m, SetRelaysOp(Retain(t.relays, node)));
    }
  }

  /** A revoked node is in no pair, no set and not in the roster. */
  lemma RevokeShaped(t: Table, node: NodeId, order: seq<Pair>)
    requires DomainOk(t) && Enabled(t, Revoke(node, order))
    ensures var t' := RunFrom(t, Calls(t, Revoke(node, order))).table;
            && AllShaped(t', Members(t'.relays)) && NoDuplicates(t'.relays)
            && node !in t'.relays && Unpaired(t', node)
  {
    RevokeSwept(t, node, order);
    RevokeRuns(t, node, order);
    RetainNoDuplicates(t.relays, node);
    if node !in t.relays { assert Members(t.relays) - {node} == Members(t.relays); }
  }

  lemma DomainStep(t: Table, op: DomainOp)
    requires DomainOk(t) && Enabled(t, op) && DuplicateFree(op)
    ensures DomainOk(RunFrom(t, Calls(t, op)).table)
  {
    RunFromCarries(t, Calls(t, op));
    match op
    case RequestPaths(pair, max, now) =>
      OneCall(t, RequestOp(pair, max, now));
      RequestShaped(t, pair, max, now);
    case Revoke(node, order) => RevokeShaped(t, node, order);
    case ApplyRoster(roster, drops, order, now) => RosterShaped(t, op);
  }

  // ----- whole runs -----

  /** A run of a network from its empty state, with the path-service calls it made. */
  ghost predicate IsRun(ops: seq<DomainOp>, calls: seq<Op>) {
    if ops == [] then calls == []
    else exists before: seq<Op> ::
      && IsRun(ops[..|ops| - 1], before)
      && Enabled(Run(before).table, ops[|ops| - 1])
      && calls == before + Calls(Run(before).table, ops[|ops| - 1])
  }

  lemma {:induction false} RunOk(ops: seq<DomainOp>, calls: seq<Op>)
    requires IsRun(ops, calls) && forall i :: 0 <= i < |ops| ==> DuplicateFree(ops[i])
    ensures DomainOk(Run(calls).table)
  {
    if ops != [] {
      var op := ops[|ops| - 1];
      var before: seq<Op> :| IsRun(ops[..|ops| - 1], before) && Enabled(Run(before).table, op)
        && calls == before + Calls(Run(before).table, op);
      RunOk(ops[..|ops| - 1], before);
      RunFromConcat(EMPTY, before, Calls(Run(before).table, op));
      DomainStep(Run(before).table, op);
    }
  }

  /** The promise about a stored set, candidate by candidate. */
  ghost predicate WellFormed(ps: PathSet, pair: Pair, roster: seq<NodeId>) {
    var cs := ps.candidates;
    && 1 <= |cs| <= Clamp(ps.max)
    && cs[0].hops == [pair.dest]
    && (forall i :: 1 <= i < |cs| ==> |cs[i].hops| == 2 && cs[i].hops[1] == pair.dest && cs[i].hops[0] in roster
                                      && cs[i].hops[0] != pair.source && cs[i].hops[0] != pair.dest)
    && (forall i, j :: 1 <= i < j < |cs| ==> cs[i].hops[0] != cs[j].hops[0])
  }

  lemma {:induction false} ShapedWellFormed(cs: seq<PathCandidate>, pair: Pair, roster: seq<NodeId>)
    requires Shaped(cs, pair, Members(roster))
    ensures cs[0].hops == [pair.dest]
    ensures forall i :: 1 <= i < |cs| ==> |cs[i].hops| == 2 && cs[i].hops[1] == pair.dest && cs[i].hops[0] in roster
                                          && cs[i].hops[0] != pair.source && cs[i].hops[0] != pair.dest
    ensures forall i, j :: 1 <= i < j < |cs| ==> cs[i].hops[0] != cs[j].hops[0]
    decreases |cs|
  {
    if |cs| > 1 {
      var front := cs[..|cs| - 1];
      ShapedWellFormed(front, pair, roster);
      assert forall i :: 0 <= i < |front| ==> front[i] == cs[i];
    }
  }

  /**
   * After every run of requests, revocations and duplicate-free roster changes, each stored set is well formed
   * over the current roster, and no two candidates of the network share a path id.
   */
  lemma RunWellFormed(ops: seq<DomainOp>, calls: seq<Op>)
    requires IsRun(ops, calls) && forall i :: 0 <= i < |ops| ==> DuplicateFree(ops[i])
    ensures var t := Run(calls).table;
            IdsOk(t) && forall p :: p in t.sets ==> WellFormed(t.sets[p], p, t.relays)
  {
    RunOk(ops, calls);
    var t := Run(calls).table;
    forall p | p in t.sets ensures WellFormed(t.sets[p], p, t.relays) {
      ShapedWellFormed(t.sets[p].candidates, p, t.relays);
    }
  }

  lemma {:induction false} FreshHops(lastId: nat, usable: seq<NodeId>, dest: NodeId, count: nat, now: nat)
    requires count <= |usable|
    ensures var cs := FreshCandidates(lastId, usable, dest, count, now);
            && |cs| == count + 1 && cs[0].hops == [dest]
            && forall i :: 1 <= i <= count ==> cs[i].hops == [usable[i - 1], dest]
  {
    if count > 0 { FreshHops(lastId, usable, dest, count - 1, now); }
  }

  /** A direct path and one path per listed relay. */
  ghost predicate DirectAndVia(cs: seq<PathCandidate>, dest: NodeId, relays: seq<NodeId>) {
    && |cs| == |relays| + 1 && cs[0].hops == [dest]
    && forall i :: 0 <= i < |relays| ==> cs[i + 1].hops == [relays[i], dest]
  }

  lemma ViaWellFormed(ps: PathSet, pair: Pair, roster: seq<NodeId>, taken: seq<NodeId>)
    requires DirectAndVia(ps.candidates, pair.dest, taken) && |taken| < Clamp(ps.max)
    requires forall i :: 0 <= i < |taken| ==> taken[i] in roster && taken[i] != pair.source && taken[i] != pair.dest
    ensures WellFormed(ps, pair, roster) <==> NoDuplicates(taken)
  {
    var cs := ps.candidates;
    forall i | 1 <= i < |cs| ensures cs[i].hops == [taken[i - 1], pair.dest] && taken[i - 1] in roster {
      assert cs[(i - 1) + 1].hops == [taken[i - 1], pair.dest];
    }
    if WellFormed(ps, pair, roster) {
      forall i, j | 0 <= i < j < |taken| ensures taken[i] != taken[j] {
        assert cs[i + 1].hops[0] == taken[i] && cs[j + 1].hops[0] == taken[j];
      }
    }
  }

  lemma FreshVia(lastId: nat, usable: seq<NodeId>, dest: NodeId, count: nat, now: nat)
    requires count <= |usable|
    ensures DirectAndVia(FreshCandidates(lastId, usable, dest, count, now), dest, usable[..count])
  {
    FreshHops(lastId, usable, dest, count, now);
    var cs := FreshCandidates(lastId, usable, dest, count, now);
    forall i | 0 <= i < count ensures cs[i + 1].hops == [usable[..count][i], dest] {
      assert cs[i + 1].hops == [usable[(i + 1) - 1], dest];
    }
  }

  lemma UsableMembers(relays: seq<NodeId>, pair: Pair, n: nat)
    requires n <= |Usable(relays, pair)|
    ensures forall i :: 0 <= i < n ==>
            var r := Usable(relays, pair)[..n][i]; r in relays && r != pair.source && r != pair.dest
  {
    var usable := Usable(relays, pair);
    forall i | 0 <= i < n ensures usable[..n][i] in relays && usable[..n][i] != pair.source
        && usable[..n][i] != pair.dest {
      assert usable[..n][i] == usable[i] && usable[i] in usable;
    }
  }

  /**
   * A set that a request builds is well formed exactly when the relays it takes, the first usable ones, are distinct.
   */
  lemma RebuiltExactly(t: Table, pair: Pair, max: nat, now: nat)
    requires !Live(t, pair, now)
    ensures pair in Request(t, pair, max, now).table.sets
    ensures WellFormed(Request(t, pair, max, now).table.sets[pair], pair, t.relays)
       <==> NoDuplicates(Usable(t.relays, pair)[..Min(|Usable(t.relays, pair)|, Clamp(max) - 1)])
  {
    var usable := Usable(t.relays, pair);
    var n := Min(|usable|, Clamp(max) - 1);
    FreshVia(t.lastId, usable, pair.dest, n, now);
    UsableMembers(t.relays, pair, n);
    RequestFills(t, pair, max, now);
    ViaWellFormed(Request(t, pair, max, now).table.sets[pair], pair, t.relays, usable[..n]);
  }

  // ----- the network object -----

  lemma RunStep(ops: seq<DomainOp>, before: seq<Op>, op: DomainOp, calls: seq<Op>)
    requires IsRun(ops, before) && Enabled(Run(before).table, op)
    requires calls == before + Calls(Run(before).table, op)
    ensures IsRun(ops + [op], calls)
  {
    assert (ops + [op])[..|ops|] == ops;
  }

  lemma DropsSnoc(t: Table, dropped: seq<NodeId>, drops: seq<seq<Pair>>, i: nat, order: seq<Pair>)
    requires i < |dropped| && |drops| == i
    requires DropsCover(t, dropped[..i], drops)
    requires Covers(DropAll(t, dropped[..i], drops), dropped[i], order)
    ensures DropsCover(t, dropped[..i + 1], drops + [order])
    ensures DropCalls(dropped[..i + 1], drops + [order])
            == DropCalls(dropped[..i], drops) + [WithdrawRelayOp(dropped[i], order)]
  {
    assert dropped[..i + 1][..i] == dropped[..i] && (drops + [order])[..i] == drops;
  }

  lemma RevokeEnabled(t: Table, node: NodeId, order: seq<Pair>)
    requires Lists(order, set p | p in t.sets && Affected(t, p, node))
    ensures Enabled(t, Revoke(node, order))
    ensures PathModel.WithdrawNode(t, node, order).table.relays == t.relays
  {
    WithdrawNodeKeepsRelays(t, node, order);
  }

  lemma Assoc(a: seq<Op>, b: seq<Op>, c: seq<Op>, d: seq<Op>)
    ensures a + b + c + d == a + (b + c + d)
  {}

  class Domain {
    const paths: PathService.PathService
    var roster: seq<NodeId>

    /** The operations so far. */
    ghost var ops: seq<DomainOp>

    /** The path service holds the roster as its relay list and is where the operations lead. */
    ghost predicate Valid()
      reads this, paths
    {
      paths.Valid() && paths.relays == roster && IsRun(ops, paths.ops)
    }

    constructor ()
      ensures Valid() && fresh(paths) && roster == [] && ops == []
    {
      paths := new PathService.PathService();
      roster, ops := [], [];
      new;
      assert Outcome(paths.View(), PathService.Pushed(paths.history)) == Run(paths.ops);
    }

    method RequestPaths(source: NodeId, dest: NodeId, max: nat, now: nat) returns (candidates: seq<PathCandidate>)
      requires Valid()
      modifies this, paths
      ensures Valid() && ops == old(ops) + [DomainOp.RequestPaths(Pair(source, dest), max, now)]
              && roster == old(roster)
      ensures candidates == CandidatesOf(paths.View(), Pair(source, dest))
    {
      ghost var op := DomainOp.RequestPaths(Pair(source, dest), max, now);
      ghost var before := paths.ops;
      candidates := paths.Request(source, dest, max, now);
      RunStep(ops, before, op, paths.ops);
      ops := ops + [op];
    }

    /** A revoked node leaves all paths, and the roster if it was on it. */
    method Revoke(node: NodeId) returns (ghost op: DomainOp)
      requires Valid()
      modifies this, paths
      ensures Valid() && roster == (if node in old(roster) then Retain(old(roster), node) else old(roster))
      ensures op.Revoke? && op.node == node && ops == old(ops) + [op]
    {
      ghost var order := Leave(node);
      op := DomainOp.Revoke(node, order);
      RunStep(ops, old(paths.ops), op, paths.ops);
      ops := ops + [op];
    }

    method Leave(node: NodeId) returns (ghost order: seq<Pair>)
      requires paths.Valid() && paths.relays == roster
      modifies this`roster, paths
      ensures paths.Valid() && paths.relays == roster
      ensures roster == (if node in old(roster) then Retain(old(roster), node) else old(roster))
      ensures Enabled(old(paths.View()), DomainOp.Revoke(node, order))
      ensures paths.ops == old(paths.ops) + Calls(old(paths.View()), DomainOp.Revoke(node, order))
    {
      order := LeavePaths(node);
      LeaveRoster(node);
    }

    method LeavePaths(node: NodeId) returns (ghost order: seq<Pair>)
      requires paths.Valid()
      modifies paths
      ensures paths.Valid() && paths.relays == old(paths.relays)
      ensures paths.ops == old(paths.ops) + [WithdrawNodeOp(node, order)]
      ensures Enabled(old(paths.View()), DomainOp.Revoke(node, order))
    {
      ghost var t := paths.View();
      order := paths.WithdrawNode(node);
      RevokeEnabled(t, node, order);
    }

    method LeaveRoster(node: NodeId)
      requires paths.Valid() && paths.relays == roster
      modifies this`roster, paths
      ensures paths.Valid() && paths.relays == roster
      ensures roster == (if node in old(roster) then Retain(old(roster), node) else old(roster))
      ensures paths.ops == old(paths.ops) + (if node in old(roster) then [SetRelaysOp(roster)] else [])
    {
      if node in roster {
        roster := Retain(roster, node);
        paths.SetRelays(roster);
      }
    }

    /** Installs a roster; reports whether it differs from the old one, order aside. */
    method ApplyRelayRoster(r: seq<NodeId>, now: nat) returns (changed: bool, ghost op: DomainOp)
      requires Valid()
      modifies this, paths
      ensures Valid() && roster == r && changed == (multiset(old(roster)) != multiset(r))
      ensures op.ApplyRoster? && op.roster == r && op.now == now && ops == old(ops) + [op]
    {
      ghost var before, t := paths.ops, paths.View();
      var dropped := Dropped(roster, r);
      changed := multiset(roster) != multiset(r);
      roster := r;
      ghost var drops, order := Install(dropped, now);
      op := ApplyRoster(r, drops, order, now);
      RunStep(ops, before, op, paths.ops);
      ops := ops + [op];
    }

    /** Hands the roster to the path service, withdraws what was dropped and fills up the rest. */
    method Install(dropped: seq<NodeId>, now: nat) returns (ghost drops: seq<seq<Pair>>, ghost order: seq<Pair>)
      requires paths.Valid()
      modifies paths
      ensures paths.Valid() && paths.relays == roster && |drops| == |dropped|
      ensures paths.ops == old(paths.ops) + ([SetRelaysOp(roster)] + DropCalls(dropped, drops) + [ExpandOp(order, now)])
      ensures DropsCover(old(paths.View()).(relays := roster), dropped, drops)
      ensures Lists(order, DropAll(old(paths.View()).(relays := roster), dropped, drops).sets.Keys)
    {
      HandOver();
      drops := WithdrawAll(dropped);
      order := FillUp(now);
      Assoc(old(paths.ops), [SetRelaysOp(roster)], DropCalls(dropped, drops), [ExpandOp(order, now)]);
    }

    method HandOver()
      requires paths.Valid()
      modifies paths
      ensures paths.Valid() && paths.View() == old(paths.View()).(relays := roster)
      ensures paths.ops == old(paths.ops) + [SetRelaysOp(roster)]
    {
      paths.SetRelays(roster);
    }

    method FillUp(now: nat) returns (ghost order: seq<Pair>)
      requires paths.Valid()
      modifies paths
      ensures paths.Valid() && paths.relays == old(paths.relays)
      ensures paths.ops == old(paths.ops) + [ExpandOp(order, now)] && Lists(order, old(paths.sets).Keys)
    {
      ghost var m := paths.View();
      order := paths.ExpandRelayCandidates(now);
      ExpandKeepsRelays(m, order, now);
    }

    /** Withdraws the dropped relays one after the other. */
    method WithdrawAll(dropped: seq<NodeId>) returns (ghost drops: seq<seq<Pair>>)
      requires paths.Valid()
      modifies paths
      ensures paths.Valid() && |drops| == |dropped|
      ensures paths.ops == old(paths.ops) + DropCalls(dropped, drops)
      ensures paths.View() == DropAll(old(paths.View()), dropped, drops)
      ensures DropsCover(old(paths.View()), dropped, drops)
      ensures paths.relays == old(paths.relays)
    {
      drops := [];
      for i := 0 to |dropped|
        invariant paths.Valid() && |drops| == i
        invariant paths.ops == old(paths.ops) + DropCalls(dropped[..i], drops)
        invariant paths.View() == DropAll(old(paths.View()), dropped[..i], drops)
        invariant DropsCover(old(paths.View()), dropped[..i], drops)
        invariant paths.relays == old(paths.relays)
      {
        drops := WithdrawNext(dropped, i, drops, old(paths.View()), old(paths.ops));
      }
      assert dropped[..|dropped|] == dropped;
    }

    method WithdrawNext(dropped: seq<NodeId>, i: nat, ghost done: seq<seq<Pair>>, ghost t: Table, ghost before: seq<Op>)
      returns (ghost drops: seq<seq<Pair>>)
      requires paths.Valid() && i < |dropped| && |done| == i
      requires paths.ops == before + DropCalls(dropped[..i], done)
      requires paths.View() == DropAll(t, dropped[..i], done) && DropsCover(t, dropped[..i], done)
      modifies paths
      ensures paths.Valid() && |drops| == i + 1
      ensures paths.ops == before + DropCalls(dropped[..i + 1], drops)
      ensures paths.View() == DropAll(t, dropped[..i + 1], drops) && DropsCover(t, dropped[..i + 1], drops)
      ensures paths.relays == old(paths.relays)
    {
      ghost var order := paths.WithdrawRelay(dropped[i]);
      DropStep(t, dropped, done, i, order, old(paths.View()), before);
      drops := done + [order];
    }
  }

  lemma DropStep(t: Table, dropped: seq<NodeId>, drops: seq<seq<Pair>>, i: nat, order: seq<Pair>, m: Table,
      before: seq<Op>)
    requires i < |dropped| && |drops| == i && DropsCover(t, dropped[..i], drops)
    requires m == DropAll(t, dropped[..i], drops) && Covers(m, dropped[i], order)
    ensures DropsCover(t, dropped[..i + 1], drops + [order])
    ensures before + DropCalls(dropped[..i], drops) + [WithdrawRelayOp(dropped[i], order)]
            == before + DropCalls(dropped[..i + 1], drops + [order])
    ensures DropAll(t, dropped[..i + 1], drops + [order]) == PathModel.WithdrawRelay(m, dropped[i], order).table
    ensures PathModel.WithdrawRelay(m, dropped[i], order).table.relays == m.relays
  {
    DropsSnoc(t, dropped, drops, i, order);
    assert dropped[..i + 1][..i] == dropped[..i] && (drops + [order])[..i] == drops;
    WithdrawRelayKeepsRelays(m, dropped[i], order);
  }

  lemma {:induction false} WithdrawRelayKeepsRelays(t: Table, node: NodeId, order: seq<Pair>)
    ensures PathModel.WithdrawRelay(t, node, order).table.relays == t.relays
  {
    if order != [] { WithdrawRelayKeepsRelays(t, node, order[..|order| - 1]); }
  }

  lemma {:induction false} WithdrawNodeKeepsRelays(t: Table, node: NodeId, order: seq<Pair>)
    ensures PathModel.WithdrawNode(t, node, order).table.relays == t.relays
  {
    if order != [] { WithdrawNodeKeepsRelays(t, node, order[..|order| - 1]); }
  }

  lemma {:induction false} ExpandKeepsRelays(t: Table, order: seq<Pair>, now: nat)
    ensures Expand(t, order, now).table.relays == t.relays
  {
    if order != [] { ExpandKeepsRelays(t, order[..|order| - 1], now); }
  }
}
