/** The path service as the coordinator runs it: a table, an id counter, a relay list and one bounded queue per node. */
module PathService {
  import opened PathModel
  import opened PathMirror

  function Queue(queues: map<NodeId, seq<PathEvent>>, node: NodeId): seq<PathEvent> {
    if node in queues then queues[node] else []
  }

  /** What happened to the queues: an event offered to one, or one emptied by a heartbeat. */
  datatype QueueStep = Offer(push: Push) | Take(node: NodeId)

  /** The queues after a history: a full queue drops what it is offered. */
  function PendingAfter(history: seq<QueueStep>): (q: map<NodeId, seq<PathEvent>>)
  {
    if history == [] then map[]
    else
      var before := PendingAfter(history[..|history| - 1]);
      match history[|history| - 1]
      case Offer(p) => Enqueue(before, p)
      case Take(node) => before - {node}
  }

  function Enqueue(queues: map<NodeId, seq<PathEvent>>, p: Push): map<NodeId, seq<PathEvent>> {
    var queue := Queue(queues, p.node);
    queues[p.node := if |queue| < PENDING_EVENTS_MAX then queue + [p.event] else queue]
  }

  function Offers(pushes: seq<Push>): (r: seq<QueueStep>)
    ensures |r| == |pushes|
  {
    if pushes == [] then [] else Offers(pushes[..|pushes| - 1]) + [Offer(pushes[|pushes| - 1])]
  }

  lemma {:induction false} OffersConcat(a: seq<Push>, b: seq<Push>)
    ensures Offers(a + b) == Offers(a) + Offers(b)
  {
    if b == [] {
      assert a + b == a;
    } else {
      OffersConcat(a, b[..|b| - 1]);
      assert (a + b)[..|a + b| - 1] == a + b[..|b| - 1];
    }
  }

  lemma OffersSnoc(history: seq<QueueStep>, a: seq<Push>, p: Push)
    ensures history + Offers(a) + [Offer(p)] == history + Offers(a + [p])
  {
    assert (a + [p])[..|a|] == a;
  }

  lemma OffersAppend(history: seq<QueueStep>, a: seq<Push>, b: seq<Push>)
    ensures history + Offers(a) + Offers(b) == history + Offers(a + b)
  {
    OffersConcat(a, b);
  }

  /** One more call extends the run. */
  lemma RunExtends(ops: seq<Op>, op: Op, t: Table, history: seq<QueueStep>)
    requires Outcome(t, Pushed(history)) == Run(ops)
    ensures Outcome(Step(t, op).table, Pushed(history + Offers(Step(t, op).pushes))) == Run(ops + [op])
  {
    assert (ops + [op])[..|ops|] == ops;
    PushedOffers(history, Step(t, op).pushes);
  }

  lemma HistorySnoc(history: seq<QueueStep>, step: QueueStep)
    ensures (history + [step])[..|history|] == history
  {}

  function Pushed(history: seq<QueueStep>): seq<Push> {
    if history == [] then []
    else
      var front := Pushed(history[..|history| - 1]);
      match history[|history| - 1]
      case Offer(p) => front + [p]
      case Take(_) => front
  }

  /** What a node took from its queue so far. */
  function TakenBy(history: seq<QueueStep>, node: NodeId): seq<PathEvent> {
    if history == [] then []
    else
      var front := history[..|history| - 1];
      var before := TakenBy(front, node);
      if history[|history| - 1] == Take(node) then before + Queue(PendingAfter(front), node) else before
  }

  /** The node was once offered an event while its queue was full. */
  predicate Saturated(history: seq<QueueStep>, node: NodeId) {
    history != [] &&
    var front := history[..|history| - 1];
    var last := history[|history| - 1];
    || Saturated(front, node)
    || (last.Offer? && last.push.node == node && |Queue(PendingAfter(front), node)| >= PENDING_EVENTS_MAX)
  }

  /** Queues stay bounded. */
  lemma {:induction false} QueuesBounded(history: seq<QueueStep>, node: NodeId)
    ensures |Queue(PendingAfter(history), node)| <= PENDING_EVENTS_MAX
  {
    if history != [] { QueuesBounded(history[..|history| - 1], node); }
  }

  /** A node whose queue was never full receives every event once, in order. */
  lemma {:induction false} NothingLost(history: seq<QueueStep>, node: NodeId)
    requires !Saturated(history, node)
    ensures EventsFor(Pushed(history), node) == TakenBy(history, node) + Queue(PendingAfter(history), node)
  {
    if history != [] {
      var front, last := history[..|history| - 1], history[|history| - 1];
      NothingLost(front, node);
      if last.Offer? {
        var pushes := Pushed(front);
        assert (pushes + [last.push])[..|pushes|] == pushes;
      }
    }
  }

  lemma PushedSnoc(history: seq<QueueStep>, p: Push)
    ensures Pushed(history + [Offer(p)]) == Pushed(history) + [p]
  {
    HistorySnoc(history, Offer(p));
  }

  lemma {:induction false} PushedOffers(history: seq<QueueStep>, pushes: seq<Push>)
    ensures Pushed(history + Offers(pushes)) == Pushed(history) + pushes
  {
    if pushes == [] {
      assert history + Offers(pushes) == history;
    } else {
      var front, last := pushes[..|pushes| - 1], pushes[|pushes| - 1];
      PushedOffers(history, front);
      PushedSnoc(history + Offers(front), last);
      assert front + [last] == pushes;
      OffersSnoc(history, front, last);
      assert Pushed(history) + pushes == Pushed(history) + front + [last];
    }
  }

  lemma TakeOne<T>(s: seq<T>, i: nat)
    requires i < |s|
    ensures s[..i + 1] == s[..i] + [s[i]] && s[..i + 1][..i] == s[..i]
  {}

  lemma DedupTake(targets: seq<NodeId>, i: nat)
    requires i < |targets|
    ensures Dedup(targets[..i + 1])
         == if targets[i] in targets[..i] then Dedup(targets[..i]) else Dedup(targets[..i]) + [targets[i]]
  {
    TakeOne(targets, i);
  }

  lemma BroadcastSnoc(targets: seq<NodeId>, x: NodeId, event: PathEvent)
    ensures Broadcast(targets + [x], event) == Broadcast(targets, event) + [Push(x, event)]
  {
    assert (targets + [x])[..|targets|] == targets;
  }

  lemma ListsSnoc(order: seq<Pair>, done: set<Pair>, x: Pair)
    requires Lists(order, done) && x !in done
    ensures Lists(order + [x], done + {x})
    ensures (order + [x])[..|order|] == order
  {}

  lemma MovedOver(all: set<Pair>, todo: set<Pair>, x: Pair)
    requires x in todo && todo <= all
    ensures all - (todo - {x}) == all - todo + {x} && x !in all - todo
  {}

  method CollectHops(cs: seq<PathCandidate>) returns (hops: seq<NodeId>)
    ensures hops == AllHops(cs)
  {
    hops := [];
    for i := 0 to |cs|
      invariant hops == AllHops(cs[..i])
    {
      hops := hops + cs[i].hops;
      TakeOne(cs, i);
    }
    assert cs[..|cs|] == cs;
  }

  method CollectKept(cs: seq<PathCandidate>, usable: seq<NodeId>) returns (kept: seq<PathCandidate>)
    ensures kept == KeptRelays(cs, usable)
  {
    kept := [];
    for i := 0 to |cs|
      invariant kept == KeptRelays(cs[..i], usable)
    {
      if |cs[i].hops| > 1 && cs[i].hops[0] in usable { kept := kept + [cs[i]]; }
      TakeOne(cs, i);
    }
    assert cs[..|cs|] == cs;
  }

  class PathService {
    var sets: map<Pair, PathSet>
    var lastId: nat
    var pending: map<NodeId, seq<PathEvent>>
    var relays: seq<NodeId>

    /** Everything that ever happened to the queues. */
    ghost var history: seq<QueueStep>

    function View(): Table
      reads this
    {
      Table(sets, lastId, relays)
    }

    /** The calls made so far, each with the order in which the hash map listed its pairs. */
    ghost var ops: seq<Op>

    ghost predicate QueuesOk()
      reads this
    {
      pending == PendingAfter(history)
    }

    /** The table and the events offered are those of the run so far. */
    ghost predicate Valid()
      reads this
    {
      QueuesOk() && Outcome(View(), Pushed(history)) == Run(ops)
    }

    /** The call moved the table and offered events as `o` says. */
    twostate predicate Did(o: Outcome)
      reads this
    {
      View() == o.table && history == old(history) + Offers(o.pushes)
    }

    /** The same, since the history was `h`. */
    ghost predicate DidSince(h: seq<QueueStep>, o: Outcome)
      reads this
    {
      View() == o.table && history == h + Offers(o.pushes)
    }

    constructor ()
      ensures Valid() && View() == EMPTY && history == [] && ops == []
    {
      sets, lastId, pending, relays := map[], 0, map[], [];
      history, ops := [], [];
    }

    method SetRelays(r: seq<NodeId>)
      requires Valid()
      modifies this
      ensures Valid() && Did(Step(old(View()), SetRelaysOp(r))) && ops == old(ops) + [SetRelaysOp(r)]
    {
      RunExtends(ops, SetRelaysOp(r), View(), history);
      relays := r;
      ops := ops + [SetRelaysOp(r)];
    }

    /** Queues one event; a full queue drops it. */
    method PushEvent(node: NodeId, event: PathEvent)
      requires QueuesOk()
      modifies this`pending, this`history
      ensures QueuesOk() && history == old(history) + [Offer(Push(node, event))]
    {
      HistorySnoc(history, Offer(Push(node, event)));
      history := history + [Offer(Push(node, event))];
      var queue := Queue(pending, node);
      if |queue| < PENDING_EVENTS_MAX {
        queue := queue + [event];
      }
      pending := pending[node := queue];
    }

    method PushAll(targets: seq<NodeId>, event: PathEvent)
      requires QueuesOk()
      modifies this`pending, this`history
      ensures QueuesOk()
      ensures history == old(history) + Offers(Broadcast(targets, event))
    {
      for i := 0 to |targets|
        invariant QueuesOk()
        invariant history == old(history) + Offers(Broadcast(targets[..i], event))
      {
        OffersSnoc(old(history), Broadcast(targets[..i], event), Push(targets[i], event));
        PushEvent(targets[i], event);
        TakeOne(targets, i);
      }
      assert targets[..|targets|] == targets;
    }

    /** Queues one event for each target once. */
    method PushOnce(targets: seq<NodeId>, event: PathEvent)
      requires QueuesOk()
      modifies this`pending, this`history
      ensures QueuesOk()
      ensures history == old(history) + Offers(Broadcast(Dedup(targets), event))
    {
      var seen: set<NodeId> := {};
      for i := 0 to |targets|
        invariant QueuesOk()
        invariant forall x :: x in seen <==> x in targets[..i]
        invariant history == old(history) + Offers(Broadcast(Dedup(targets[..i]), event))
      {
        PushNext(targets, i, seen, event, old(history));
        seen := seen + {targets[i]};
        TakeOne(targets, i);
      }
      assert targets[..|targets|] == targets;
    }

    method PushNext(targets: seq<NodeId>, i: nat, seen: set<NodeId>, event: PathEvent, ghost before: seq<QueueStep>)
      requires QueuesOk() && i < |targets| && (targets[i] in seen <==> targets[i] in targets[..i])
      requires history == before + Offers(Broadcast(Dedup(targets[..i]), event))
      modifies this`pending, this`history
      ensures QueuesOk() && history == before + Offers(Broadcast(Dedup(targets[..i + 1]), event))
    {
      DedupTake(targets, i);
      BroadcastSnoc(Dedup(targets[..i]), targets[i], event);
      OffersSnoc(before, Broadcast(Dedup(targets[..i]), event), Push(targets[i], event));
      if targets[i] !in seen { PushEvent(targets[i], event); }
    }

    method PushWithdrawals(pair: Pair, cs: seq<PathCandidate>)
      requires QueuesOk()
      modifies this`pending, this`history
      ensures QueuesOk()
      ensures history == old(history) + Offers(PushWithdrawAll(pair, cs))
    {
      for i := 0 to |cs|
        invariant QueuesOk()
        invariant history == old(history) + Offers(PushWithdrawAll(pair, cs[..i]))
      {
        PushOnce([pair.source, pair.dest] + cs[i].hops, Withdraw(pair.dest, cs[i].pathId));
        TakeOne(cs, i);
        OffersAppend(old(history), PushWithdrawAll(pair, cs[..i]), PushWithdraw(pair, cs[i]));
      }
      assert cs[..|cs|] == cs;
    }

    /** Candidate paths for a pair: an unexpired set is returned and pushed again, else a fresh one is built. */
    method Request(source: NodeId, dest: NodeId, max: nat, now: nat) returns (candidates: seq<PathCandidate>)
      requires Valid()
      modifies this
      ensures Valid() && Did(PathModel.Request(old(View()), Pair(source, dest), max, now))
      ensures ops == old(ops) + [RequestOp(Pair(source, dest), max, now)]
      ensures candidates == CandidatesOf(View(), Pair(source, dest))
    {
      var key := Pair(source, dest);
      if Live(View(), key, now) {
        PushAll([source, dest] + Usable(relays, key), Update(source, dest, sets[key]));
      } else {
        RebuildSet(key, max, now);
      }
      candidates := sets[key].candidates;
      RunExtends(ops, RequestOp(key, max, now), old(View()), old(history));
      ops := ops + [RequestOp(key, max, now)];
    }

    method RebuildSet(key: Pair, max: nat, now: nat)
      requires QueuesOk()
      modifies this`sets, this`lastId, this`pending, this`history
      ensures QueuesOk() && key in sets && Did(Rebuild(old(View()), key, max, now))
    {
      var usable, budget := Usable(relays, key), Clamp(max);
      var version := (if key in sets then sets[key].version else 0) + 1;
      var candidates := BuildCandidates(usable, key.dest, budget, now);
      InstallSet(key, usable, PathSet(version, candidates, budget));
    }

    /** Stores a set and pushes it to its participants. */
    method InstallSet(key: Pair, usable: seq<NodeId>, ps: PathSet)
      requires QueuesOk()
      modifies this`sets, this`pending, this`history
      ensures QueuesOk() && sets == old(sets)[key := ps]
      ensures history == old(history) + Offers(PushToParticipants(key, usable, ps))
    {
      PushAll([key.source, key.dest] + usable, Update(key.source, key.dest, ps));
      sets := sets[key := ps];
    }

    /** A direct candidate and one per relay until the budget is used, each with a new id. */
    method BuildCandidates(usable: seq<NodeId>, dest: NodeId, budget: nat, now: nat)
        returns (candidates: seq<PathCandidate>)
      requires budget >= 2
      modifies this`lastId
      ensures candidates == FreshCandidates(old(lastId), usable, dest, Min(|usable|, budget - 1), now)
      ensures lastId == old(lastId) + 1 + Min(|usable|, budget - 1)
    {
      lastId := lastId + 1;
      candidates := [Direct(lastId, dest, now)];
      var i := 0;
      while i < |usable| && |candidates| < budget
        invariant 0 <= i <= |usable| && |candidates| == 1 + i <= budget
        invariant lastId == old(lastId) + 1 + i
        invariant candidates == FreshCandidates(old(lastId), usable, dest, i, now)
      {
        lastId := lastId + 1;
        candidates := candidates + [Via(lastId, usable[i], dest, now)];
        i := i + 1;
      }
    }

    /** Drops the candidates of one set that pass through node. */
    method WithdrawRelayInSet(pair: Pair, node: NodeId)
      requires QueuesOk()
      modifies this`sets, this`lastId, this`pending, this`history
      ensures QueuesOk() && Did(WithdrawInSet(old(View()), pair, node))
    {
      if pair !in sets { return; }
      var was := sets[pair];
      var withdrawn := Using(was.candidates, node);
      if withdrawn == [] { return; }
      ShrinkSet(pair, withdrawn, PathSet(was.version + 1, NotUsing(was.candidates, node), was.max));
    }

    method ShrinkSet(pair: Pair, withdrawn: seq<PathCandidate>, ps: PathSet)
      requires QueuesOk()
      modifies this`sets, this`lastId, this`pending, this`history
      ensures QueuesOk() && Did(Shrink(old(View()), pair, withdrawn, ps))
    {
      if ps.candidates == [] {
        sets := sets - {pair};
        PushWithdrawals(pair, withdrawn);
      } else {
        sets := sets[pair := ps];
        PushWithdrawals(pair, withdrawn);
        PushRemaining(pair, ps);
        OffersAppend(old(history), PushWithdrawAll(pair, withdrawn), RemainingPushes(pair, ps));
      }
    }

    /** The update with what is left goes once to everyone on a remaining candidate. */
    method PushRemaining(pair: Pair, ps: PathSet)
      requires QueuesOk()
      modifies this`pending, this`history
      ensures QueuesOk() && history == old(history) + Offers(RemainingPushes(pair, ps))
    {
      var hops := CollectHops(ps.candidates);
      PushOnce([pair.source, pair.dest] + hops, Update(pair.source, pair.dest, ps));
    }

    /** Revocation as seen by one set. */
    method WithdrawNodeInSet(pair: Pair, node: NodeId)
      requires QueuesOk()
      modifies this`sets, this`lastId, this`pending, this`history
      ensures QueuesOk() && Did(WithdrawNodeAt(old(View()), pair, node))
    {
      if pair.source == node || pair.dest == node {
        if pair in sets {
          var cs := sets[pair].candidates;
          sets := sets - {pair};
          PushWithdrawals(pair, cs);
        }
      } else {
        WithdrawRelayInSet(pair, node);
      }
    }

    method SweepNodeNext(pair: Pair, node: NodeId, ghost order: seq<Pair>, ghost t: Table, ghost h: seq<QueueStep>)
      requires QueuesOk() && DidSince(h, PathModel.WithdrawNode(t, node, order))
      modifies this`sets, this`lastId, this`pending, this`history
      ensures QueuesOk() && DidSince(h, PathModel.WithdrawNode(t, node, order + [pair]))
    {
      ghost var before := View();
      WithdrawNodeInSet(pair, node);
      assert (order + [pair])[..|order|] == order;
      OffersAppend(h, PathModel.WithdrawNode(t, node, order).pushes, WithdrawNodeAt(before, pair, node).pushes);
    }

    method SweepNode(node: NodeId) returns (ghost order: seq<Pair>)
      requires QueuesOk()
      modifies this`sets, this`lastId, this`pending, this`history
      ensures Lists(order, set p | p in old(sets) && Affected(old(View()), p, node))
      ensures QueuesOk() && Did(PathModel.WithdrawNode(old(View()), node, order))
    {
      var todo := set p | p in sets && Affected(View(), p, node);
      order := [];
      ghost var all := todo;
      while todo != {}
        invariant QueuesOk() && DidSince(old(history), PathModel.WithdrawNode(old(View()), node, order))
        invariant Lists(order, all - todo) && todo <= all
        decreases |todo|
      {
        var pair :| pair in todo;
        SweepNodeNext(pair, node, order, old(View()), old(history));
        ListsSnoc(order, all - todo, pair);
        MovedOver(all, todo, pair);
        order := order + [pair];
        todo := todo - {pair};
      }
      assert all - todo == all;
    }

    /** Revocation: every set that involves node, in whatever order the hash map lists them. */
    method WithdrawNode(node: NodeId) returns (ghost order: seq<Pair>)
      requires Valid()
      modifies this
      ensures Lists(order, set p | p in old(sets) && Affected(old(View()), p, node))
      ensures Valid() && Did(PathModel.WithdrawNode(old(View()), node, order))
              && ops == old(ops) + [WithdrawNodeOp(node, order)]
    {
      order := SweepNode(node);
      RunExtends(ops, WithdrawNodeOp(node, order), old(View()), old(history));
      ops := ops + [WithdrawNodeOp(node, order)];
    }

    method SweepRelayNext(pair: Pair, node: NodeId, ghost order: seq<Pair>, ghost t: Table, ghost h: seq<QueueStep>)
      requires QueuesOk() && DidSince(h, PathModel.WithdrawRelay(t, node, order))
      modifies this`sets, this`lastId, this`pending, this`history
      ensures QueuesOk() && DidSince(h, PathModel.WithdrawRelay(t, node, order + [pair]))
    {
      ghost var before := View();
      WithdrawRelayInSet(pair, node);
      assert (order + [pair])[..|order|] == order;
      OffersAppend(h, PathModel.WithdrawRelay(t, node, order).pushes, WithdrawInSet(before, pair, node).pushes);
    }

    method SweepRelay(node: NodeId) returns (ghost order: seq<Pair>)
      requires QueuesOk()
      modifies this`sets, this`lastId, this`pending, this`history
      ensures Lists(order, set p | p in old(sets) && Using(old(sets)[p].candidates, node) != [])
      ensures QueuesOk() && Did(PathModel.WithdrawRelay(old(View()), node, order))
    {
      var todo := set p | p in sets && Using(sets[p].candidates, node) != [];
      order := [];
      ghost var all := todo;
      while todo != {}
        invariant QueuesOk() && DidSince(old(history), PathModel.WithdrawRelay(old(View()), node, order))
        invariant Lists(order, all - todo) && todo <= all
        decreases |todo|
      {
        var pair :| pair in todo;
        SweepRelayNext(pair, node, order, old(View()), old(history));
        ListsSnoc(order, all - todo, pair);
        MovedOver(all, todo, pair);
        order := order + [pair];
        todo := todo - {pair};
      }
      assert all - todo == all;
    }

    /** A node leaves the roster: the candidates through it go, set by set. */
    method WithdrawRelay(node: NodeId) returns (ghost order: seq<Pair>)
      requires Valid()
      modifies this
      ensures Lists(order, set p | p in old(sets) && Using(old(sets)[p].candidates, node) != [])
      ensures Valid() && Did(PathModel.WithdrawRelay(old(View()), node, order))
              && ops == old(ops) + [WithdrawRelayOp(node, order)]
    {
      order := SweepRelay(node);
      RunExtends(ops, WithdrawRelayOp(node, order), old(View()), old(history));
      ops := ops + [WithdrawRelayOp(node, order)];
    }

    /** Adds the candidates one set lacks for the current relays. */
    method ExpandPair(pair: Pair, now: nat)
      requires QueuesOk()
      modifies this`sets, this`lastId, this`pending, this`history
      ensures QueuesOk() && Did(ExpandAt(old(View()), pair, now))
    {
      var usable := Usable(relays, pair);
      if pair !in sets || Expired(sets[pair], now) || !Missing(sets[pair].candidates, usable) { return; }
      var was := sets[pair];
      var candidates := KeepCandidates(was, usable, pair.dest, now);
      candidates := FillUp(candidates, usable, pair.dest, Clamp(was.max), now);
      InstallSet(pair, usable, PathSet(was.version + 1, candidates, was.max));
    }

    /** The direct candidate, made if there is none, and those through relays still in the roster. */
    method KeepCandidates(was: PathSet, usable: seq<NodeId>, dest: NodeId, now: nat)
        returns (candidates: seq<PathCandidate>)
      modifies this`lastId
      ensures candidates == KeptCandidates(was, usable, dest, old(lastId), now)
      ensures lastId == old(lastId) + BaseAlloc(was)
    {
      candidates := DirectOnly(was.candidates);
      if candidates == [] {
        lastId := lastId + 1;
        candidates := [Direct(lastId, dest, now)];
      }
      var kept := CollectKept(was.candidates, usable);
      candidates := candidates + kept;
    }

    /** One candidate per relay that has none, while the budget lasts. */
    method FillUp(cs: seq<PathCandidate>, usable: seq<NodeId>, dest: NodeId, budget: nat, now: nat)
        returns (r: seq<PathCandidate>)
      modifies this`lastId
      ensures r == Fill(cs, usable, dest, budget, old(lastId), now)
      ensures lastId == old(lastId) + |r| - |cs|
    {
      r := cs;
      var i := 0;
      while i < |usable| && |r| < budget
        invariant 0 <= i <= |usable| && |cs| <= |r| && lastId == old(lastId) + |r| - |cs|
        invariant Fill(cs, usable, dest, budget, old(lastId), now) == Fill(r, usable[i..], dest, budget, lastId, now)
      {
        assert usable[i..][1..] == usable[i + 1..];
        if !HasFirstHop(r, usable[i]) {
          lastId := lastId + 1;
          r := r + [Via(lastId, usable[i], dest, now)];
        }
        i := i + 1;
      }
    }

    method ExpandNext(pair: Pair, now: nat, ghost order: seq<Pair>, ghost t: Table, ghost h: seq<QueueStep>)
      requires QueuesOk() && DidSince(h, Expand(t, order, now))
      modifies this`sets, this`lastId, this`pending, this`history
      ensures QueuesOk() && DidSince(h, Expand(t, order + [pair], now))
    {
      ghost var before := View();
      ExpandPair(pair, now);
      assert (order + [pair])[..|order|] == order;
      OffersAppend(h, Expand(t, order, now).pushes, ExpandAt(before, pair, now).pushes);
    }

    method ExpandAll(now: nat) returns (ghost order: seq<Pair>)
      requires QueuesOk()
      modifies this`sets, this`lastId, this`pending, this`history
      ensures Lists(order, old(sets).Keys)
      ensures QueuesOk() && Did(Expand(old(View()), order, now))
    {
      var todo := sets.Keys;
      order := [];
      ghost var all := todo;
      while todo != {}
        invariant QueuesOk() && DidSince(old(history), Expand(old(View()), order, now))
        invariant Lists(order, all - todo) && todo <= all
        decreases |todo|
      {
        var pair :| pair in todo;
        ExpandNext(pair, now, order, old(View()), old(history));
        ListsSnoc(order, all - todo, pair);
        MovedOver(all, todo, pair);
        order := order + [pair];
        todo := todo - {pair};
      }
      assert all - todo == all;
    }

    /** Roster expansion over all sets, in whatever order the hash map lists them. */
    method ExpandRelayCandidates(now: nat) returns (ghost order: seq<Pair>)
      requires Valid()
      modifies this
      ensures Lists(order, old(sets).Keys)
      ensures Valid() && Did(Expand(old(View()), order, now)) && ops == old(ops) + [ExpandOp(order, now)]
    {
      order := ExpandAll(now);
      RunExtends(ops, ExpandOp(order, now), old(View()), old(history));
      ops := ops + [ExpandOp(order, now)];
    }

    /** A heartbeat takes the whole queue of its node. */
    method TakeEvents(node: NodeId) returns (events: seq<PathEvent>)
      requires Valid()
      modifies this`pending, this`history
      ensures Valid() && events == Queue(old(pending), node)
      ensures history == old(history) + [Take(node)]
    {
      HistorySnoc(history, Take(node));
      history := history + [Take(node)];
      events := Queue(pending, node);
      pending := pending - {node};
    }

    /**
     * In every reachable state, a node whose queue was never full and that has applied what it took
     * and what still waits for it holds the server's candidates of each pair it is an end of.
     */
    lemma QueueMirrors(node: NodeId, pair: Pair)
      requires Valid() && !Saturated(history, node) && AtEnd(node, pair)
      ensures Replay(TakenBy(history, node) + Queue(pending, node), pair) == CandidatesOf(View(), pair)
    {
      NothingLost(history, node);
      RunMirrored(ops, node, pair);
    }
  }
}
