/** Candidate paths between nodes: what each path-service operation does to the table, and which events it queues. */
module PathModel {

  const PATH_DEFAULT_TTL: nat := 3600
  const PENDING_EVENTS_MAX: nat := 1024

  type NodeId = nat

  datatype Pair = Pair(source: NodeId, dest: NodeId)

  datatype PathCandidate = PathCandidate(pathId: nat, epoch: nat, hops: seq<NodeId>, expiresAt: nat)

  datatype PathSet = PathSet(version: nat, candidates: seq<PathCandidate>, max: nat)

  datatype PathEvent =
    | Update(source: NodeId, dest: NodeId, paths: PathSet)
    | Withdraw(dest: NodeId, pathId: nat)

  /** One event queued for one node. */
  datatype Push = Push(node: NodeId, event: PathEvent)

  datatype Table = Table(sets: map<Pair, PathSet>, lastId: nat, relays: seq<NodeId>)

  /** The outcome of an operation: the new table and the events pushed, in order. */
  datatype Outcome = Outcome(table: Table, pushes: seq<Push>)

  function Clamp(max: nat): (r: nat)
    ensures 2 <= r <= 4
  {
    if max < 2 then 2 else if max > 4 then 4 else max
  }

  predicate Expired(ps: PathSet, now: nat) {
    ps.candidates == [] ||
    forall i :: 0 <= i < |ps.candidates| ==> ps.candidates[i].expiresAt != 0 && now > ps.candidates[i].expiresAt
  }

  function Direct(id: nat, dest: NodeId, now: nat): PathCandidate {
    PathCandidate(id, 1, [dest], now + PATH_DEFAULT_TTL)
  }

  function Via(id: nat, relay: NodeId, dest: NodeId, now: nat): PathCandidate {
    PathCandidate(id, 1, [relay, dest], now + PATH_DEFAULT_TTL)
  }

  /** The relays that may serve a pair: all but its two ends, in roster order. */
  function Usable(relays: seq<NodeId>, pair: Pair): (r: seq<NodeId>)
    ensures forall x :: x in r <==> x in relays && x != pair.source && x != pair.dest
  {
    if relays == [] then []
    else
      var rest := Usable(relays[1..], pair);
      if relays[0] != pair.source && relays[0] != pair.dest then [relays[0]] + rest else rest
  }

  // ----- events -----

  function Broadcast(targets: seq<NodeId>, event: PathEvent): (r: seq<Push>)
    ensures |r| == |targets|
  {
    if targets == [] then []
    else Broadcast(targets[..|targets| - 1], event) + [Push(targets[|targets| - 1], event)]
  }

  /** First occurrences only, as the loops over `seen` keep them. */
  function Dedup(targets: seq<NodeId>): (r: seq<NodeId>)
    ensures forall x :: x in r <==> x in targets
    decreases |targets|
  {
    if targets == [] then []
    else
      var last := targets[|targets| - 1];
      var front := Dedup(targets[..|targets| - 1]);
      if last in targets[..|targets| - 1] then front else front + [last]
  }

  function PushToParticipants(pair: Pair, usable: seq<NodeId>, ps: PathSet): seq<Push> {
    Broadcast([pair.source, pair.dest] + usable, Update(pair.source, pair.dest, ps))
  }

  function PushWithdraw(pair: Pair, c: PathCandidate): seq<Push> {
    Broadcast(Dedup([pair.source, pair.dest] + c.hops), Withdraw(pair.dest, c.pathId))
  }

  function PushWithdrawAll(pair: Pair, cs: seq<PathCandidate>): seq<Push> {
    if cs == [] then [] else PushWithdrawAll(pair, cs[..|cs| - 1]) + PushWithdraw(pair, cs[|cs| - 1])
  }

  function AllHops(cs: seq<PathCandidate>): seq<NodeId> {
    if cs == [] then [] else AllHops(cs[..|cs| - 1]) + cs[|cs| - 1].hops
  }

  /** The update with what is left of a set goes once to everyone on a remaining candidate. */
  function RemainingPushes(pair: Pair, ps: PathSet): seq<Push> {
    Broadcast(Dedup([pair.source, pair.dest] + AllHops(ps.candidates)), Update(pair.source, pair.dest, ps))
  }

  // ----- request -----

  /** A direct path and one path per relay, with consecutive ids, until the budget is used. */
  function FreshCandidates(lastId: nat, usable: seq<NodeId>, dest: NodeId, count: nat,
      now: nat): (r: seq<PathCandidate>)
    requires count <= |usable|
    ensures |r| == 1 + count
  {
    if count == 0 then [Direct(lastId + 1, dest, now)]
    else FreshCandidates(lastId, usable, dest, count - 1, now) + [Via(lastId + 1 + count, usable[count - 1], dest, now)]
  }

  function Min(a: nat, b: nat): nat {
    if a < b then a else b
  }

  /** Replaces the set of a pair by a fresh one under the next version. */
  function Rebuild(t: Table, pair: Pair, max: nat, now: nat): Outcome {
    var usable := Usable(t.relays, pair);
    var version := (if pair in t.sets then t.sets[pair].version else 0) + 1;
    var count := Min(|usable|, Clamp(max) - 1);
    var ps := PathSet(version, FreshCandidates(t.lastId, usable, pair.dest, count, now), Clamp(max));
    Outcome(t.(sets := t.sets[pair := ps], lastId := t.lastId + 1 + count), PushToParticipants(pair, usable, ps))
  }

  predicate Live(t: Table, pair: Pair, now: nat) {
    pair in t.sets && !Expired(t.sets[pair], now)
  }

  /** An unexpired set is pushed again as it is; otherwise the set is rebuilt. */
  function Request(t: Table, pair: Pair, max: nat, now: nat): Outcome {
    if Live(t, pair, now) then Outcome(t, PushToParticipants(pair, Usable(t.relays, pair), t.sets[pair]))
    else Rebuild(t, pair, max, now)
  }

  // ----- withdrawal -----

  function Using(cs: seq<PathCandidate>, node: NodeId): (r: seq<PathCandidate>)
    ensures forall c :: c in r <==> c in cs && node in c.hops
  {
    if cs == [] then []
    else
      var last := cs[|cs| - 1];
      var front := Using(cs[..|cs| - 1], node);
      if node in last.hops then front + [last] else front
  }

  function NotUsing(cs: seq<PathCandidate>, node: NodeId): (r: seq<PathCandidate>)
    ensures |r| <= |cs|
    ensures forall c :: c in r <==> c in cs && node !in c.hops
  {
    if cs == [] then []
    else
      var last := cs[|cs| - 1];
      var front := NotUsing(cs[..|cs| - 1], node);
      if node in last.hops then front else front + [last]
  }

  /** Takes `withdrawn` out of a set: the set goes when nothing is left, else the rest stays under a new version. */
  function Shrink(t: Table, pair: Pair, withdrawn: seq<PathCandidate>, ps: PathSet): Outcome {
    if ps.candidates == [] then
      Outcome(t.(sets := t.sets - {pair}), PushWithdrawAll(pair, withdrawn))
    else
      Outcome(t.(sets := t.sets[pair := ps]), PushWithdrawAll(pair, withdrawn) + RemainingPushes(pair, ps))
  }

  /** Drops the candidates of one set that pass through node. */
  function WithdrawInSet(t: Table, pair: Pair, node: NodeId): Outcome {
    if pair !in t.sets || Using(t.sets[pair].candidates, node) == [] then Outcome(t, [])
    else
      var was := t.sets[pair];
      Shrink(t, pair, Using(was.candidates, node), PathSet(was.version + 1, NotUsing(was.candidates, node), was.max))
  }

  /** Revocation of node as seen by one set: all of it when node is an end, else the candidates through node. */
  function WithdrawNodeAt(t: Table, pair: Pair, node: NodeId): Outcome {
    if pair.source == node || pair.dest == node then
      if pair in t.sets then
        Outcome(t.(sets := t.sets - {pair}), PushWithdrawAll(pair, t.sets[pair].candidates))
      else Outcome(t, [])
    else WithdrawInSet(t, pair, node)
  }

  predicate Affected(t: Table, pair: Pair, node: NodeId) {
    pair in t.sets && (pair.source == node || pair.dest == node || Using(t.sets[pair].candidates, node) != [])
  }

  /** `order` is the order in which the hash map happens to list the pairs. */
  function WithdrawNode(t: Table, node: NodeId, order: seq<Pair>): Outcome {
    if order == [] then Outcome(t, [])
    else
      var o := WithdrawNode(t, node, order[..|order| - 1]);
      var o' := WithdrawNodeAt(o.table, order[|order| - 1], node);
      Outcome(o'.table, o.pushes + o'.pushes)
  }

  function WithdrawRelay(t: Table, node: NodeId, order: seq<Pair>): Outcome {
    if order == [] then Outcome(t, [])
    else
      var o := WithdrawRelay(t, node, order[..|order| - 1]);
      var o' := WithdrawInSet(o.table, order[|order| - 1], node);
      Outcome(o'.table, o.pushes + o'.pushes)
  }

  // ----- roster expansion -----

  predicate HasFirstHop(cs: seq<PathCandidate>, relay: NodeId) {
    exists i :: 0 <= i < |cs| && cs[i].hops != [] && cs[i].hops[0] == relay
  }

  predicate Missing(cs: seq<PathCandidate>, usable: seq<NodeId>) {
    exists i :: 0 <= i < |usable| && !HasFirstHop(cs, usable[i])
  }

  function DirectOnly(cs: seq<PathCandidate>): (r: seq<PathCandidate>)
  {
    if cs == [] then []
    else
      var last := cs[|cs| - 1];
      var front := DirectOnly(cs[..|cs| - 1]);
      if |last.hops| == 1 then front + [last] else front
  }

  function KeptRelays(cs: seq<PathCandidate>, usable: seq<NodeId>): (r: seq<PathCandidate>)
  {
    if cs == [] then []
    else
      var last := cs[|cs| - 1];
      var front := KeptRelays(cs[..|cs| - 1], usable);
      if |last.hops| > 1 && last.hops[0] in usable then front + [last] else front
  }

  /** Adds a candidate for each relay that has none, while the budget lasts. */
  function Fill(cs: seq<PathCandidate>, usable: seq<NodeId>, dest: NodeId, budget: nat, lastId: nat,
      now: nat): (r: seq<PathCandidate>)
    ensures |r| >= |cs| && r[..|cs|] == cs
    decreases |usable|
  {
    if usable == [] || |cs| >= budget then cs
    else if HasFirstHop(cs, usable[0]) then Fill(cs, usable[1..], dest, budget, lastId, now)
    else
      var more := cs + [Via(lastId + 1, usable[0], dest, now)];
      var r := Fill(more, usable[1..], dest, budget, lastId + 1, now);
      assert r[..|cs|] == r[..|more|][..|cs|];
      r
  }

  /** The direct candidates of a set, or a fresh one when it has none. */
  function Base(ps: PathSet, dest: NodeId, lastId: nat, now: nat): seq<PathCandidate> {
    var direct := DirectOnly(ps.candidates);
    if direct == [] then [Direct(lastId + 1, dest, now)] else direct
  }

  function BaseAlloc(ps: PathSet): nat {
    if DirectOnly(ps.candidates) == [] then 1 else 0
  }

  predicate NeedsExpansion(ps: PathSet, usable: seq<NodeId>, now: nat) {
    !Expired(ps, now) && Missing(ps.candidates, usable)
  }

  function KeptCandidates(ps: PathSet, usable: seq<NodeId>, dest: NodeId, lastId: nat, now: nat): seq<PathCandidate> {
    Base(ps, dest, lastId, now) + KeptRelays(ps.candidates, usable)
  }

  function ExpandedCandidates(ps: PathSet, usable: seq<NodeId>, dest: NodeId, lastId: nat,
      now: nat): seq<PathCandidate> {
    Fill(KeptCandidates(ps, usable, dest, lastId, now), usable, dest, Clamp(ps.max), lastId + BaseAlloc(ps), now)
  }

  /** How many ids one expansion takes. */
  function Allocated(ps: PathSet, usable: seq<NodeId>, dest: NodeId, lastId: nat, now: nat): nat {
    var kept := KeptCandidates(ps, usable, dest, lastId, now);
    BaseAlloc(ps) + |ExpandedCandidates(ps, usable, dest, lastId, now)| - |kept|
  }

  function ExpandAt(t: Table, pair: Pair, now: nat): Outcome {
    var usable := Usable(t.relays, pair);
    if pair !in t.sets || !NeedsExpansion(t.sets[pair], usable, now) then Outcome(t, [])
    else
      var was := t.sets[pair];
      var ps := PathSet(was.version + 1, ExpandedCandidates(was, usable, pair.dest, t.lastId, now), was.max);
      Outcome(t.(sets := t.sets[pair := ps], lastId := t.lastId + Allocated(was, usable, pair.dest, t.lastId, now)),
              PushToParticipants(pair, usable, ps))
  }

  function Expand(t: Table, order: seq<Pair>, now: nat): Outcome {
    if order == [] then Outcome(t, [])
    else
      var o := Expand(t, order[..|order| - 1], now);
      var o' := ExpandAt(o.table, order[|order| - 1], now);
      Outcome(o'.table, o.pushes + o'.pushes)
  }

  /** A listing of a set of pairs, each once. */
  ghost predicate Lists(order: seq<Pair>, pairs: set<Pair>) {
    && (forall i, j :: 0 <= i < j < |order| ==> order[i] != order[j])
    && (forall p :: p in pairs <==> p in order)
  }
}
