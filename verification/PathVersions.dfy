/** The version of a path set: it grows with every change of the set and never otherwise. */
module PathVersions {
  import opened PathModel
  import opened PathMirror

  /** Sets that survive keep their version and content, or get a higher version. */
  ghost predicate Versioned(t: Table, t': Table) {
    forall p :: p in t.sets && p in t'.sets ==> t'.sets[p] == t.sets[p] || t'.sets[p].version > t.sets[p].version
  }

  /** Only known pairs are left. */
  ghost predicate NoNewcomers(t: Table, t': Table) {
    t'.sets.Keys <= t.sets.Keys
  }

  lemma VersionedOn(a: Table, b: Table, c: Table)
    requires Versioned(a, b) && Versioned(b, c) && NoNewcomers(b, c)
    ensures Versioned(a, c)
  {}

  lemma {:induction false} WithdrawNodeVersions(t: Table, node: NodeId, order: seq<Pair>)
    ensures var t' := WithdrawNode(t, node, order).table; Versioned(t, t') && NoNewcomers(t, t')
  {
    if order != [] {
      var front, last := order[..|order| - 1], order[|order| - 1];
      WithdrawNodeVersions(t, node, front);
      var m := WithdrawNode(t, node, front).table;
      VersionedOn(t, m, WithdrawNodeAt(m, last, node).table);
    }
  }

  lemma {:induction false} WithdrawRelayVersions(t: Table, node: NodeId, order: seq<Pair>)
    ensures var t' := WithdrawRelay(t, node, order).table; Versioned(t, t') && NoNewcomers(t, t')
  {
    if order != [] {
      var front, last := order[..|order| - 1], order[|order| - 1];
      WithdrawRelayVersions(t, node, front);
      var m := WithdrawRelay(t, node, front).table;
      VersionedOn(t, m, WithdrawInSet(m, last, node).table);
    }
  }

  lemma {:induction false} ExpandVersions(t: Table, order: seq<Pair>, now: nat)
    ensures var t' := Expand(t, order, now).table; Versioned(t, t') && NoNewcomers(t, t')
  {
    if order != [] {
      var front, last := order[..|order| - 1], order[|order| - 1];
      ExpandVersions(t, front, now);
      var m := Expand(t, front, now).table;
      VersionedOn(t, m, ExpandAt(m, last, now).table);
    }
  }

  /** One operation: a set it changes and keeps has a higher version, every other kept set is as it was. */
  lemma StepVersions(t: Table, op: Op)
    ensures Versioned(t, Step(t, op).table)
  {
    match op
    case RequestOp(_, _, _) =>
    case WithdrawNodeOp(node, order) => WithdrawNodeVersions(t, node, order);
    case WithdrawRelayOp(node, order) => WithdrawRelayVersions(t, node, order);
    case ExpandOp(order, now) => ExpandVersions(t, order, now);
    case SetRelaysOp(_) =>
  }
}
