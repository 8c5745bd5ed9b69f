/** What the operations of the coordinator do to the map its nodes see. */
module NetmapEffects {
  import opened Registries
  import opened CoordCore
  import opened CoordinatorModel
  import D = Directory
  import L = Liveness
  import M = Machine

  /** All rows of a network but one are as they were. */
  ghost predicate OnlyRow(a: Coordinator, b: Coordinator, i: nat, node: NodeId)
    requires i < |a.core.domains| && i < |b.core.domains|
  {
    View(b, i) - {node} == View(a, i) - {node}
  }

  /** Reported endpoints are what the row of the node shows, local ones first; no other row changes. */
  lemma EndpointsShown(c: Coordinator, node: NodeId, local: seq<string>, seen: seq<string>, anchor: Anchor,
      orders: Orders, i: nat)
    requires i < |c.core.domains|
    ensures var c' := Execute(c, SetEndpoints(node, local, seen), anchor, orders);
            && |c'.core.domains| == |c.core.domains| && OnlyRow(c, c', i, node)
            && (node in View(c, i) <==> node in View(c', i))
            && (node in View(c', i) ==> View(c', i)[node] == View(c, i)[node].(endpoints := D.Merge(local, seen)))
  {
    var c' := Execute(c, SetEndpoints(node, local, seen), anchor, orders);
    assert View(c', i) - {node} == View(c, i) - {node};
  }

  /** A revoked node is in no map, its tombstone carries the log position, and every other row stays. */
  lemma RevokedGone(c: Coordinator, node: NodeId, now: nat, anchor: Anchor, orders: Orders, i: nat)
    requires CoreOk(c.core) && i < |c.core.domains|
    ensures var c' := Execute(c, Revoke(node, now), anchor, orders);
            && |c'.core.domains| == |c.core.domains| && node !in View(c', i) && OnlyRow(c, c', i, node)
  {
    var c' := Execute(c, Revoke(node, now), anchor, orders);
    M.RevokeEntries(c.core, node, now, anchor, orders);
    OtherRows(c, c', i, node);
  }

  lemma OtherRows(c: Coordinator, c': Coordinator, i: nat, node: NodeId)
    requires i < |c.core.domains| && i < |c'.core.domains|
    requires c'.core.domains[i].registry.entries - {node} == c.core.domains[i].registry.entries - {node}
    requires c'.core.domains[i].exitAllow == c.core.domains[i].exitAllow
    requires c'.core.endpoints - {node} == c.core.endpoints - {node}
            && c'.leases.offline - {node} == c.leases.offline - {node}
    ensures OnlyRow(c, c', i, node)
  {
    var r: map<NodeId, NodeEntry>, r': map<NodeId, NodeEntry> := c.core.domains[i].registry.entries,
        c'.core.domains[i].registry.entries;
    forall n | n != node ensures (n in r <==> n in r') && (n in r ==> View(c', i)[n] == View(c, i)[n]) {
      assert n in r - {node} <==> n in r' - {node};
      if n in r { SameRow(c, c', i, node, n); }
    }
  }

  lemma SameRow(c: Coordinator, c': Coordinator, i: nat, node: NodeId, n: NodeId)
    requires i < |c.core.domains| && i < |c'.core.domains| && n != node
    requires n in c.core.domains[i].registry.entries && n in c'.core.domains[i].registry.entries
    requires c'.core.domains[i].registry.entries - {node} == c.core.domains[i].registry.entries - {node}
    requires c'.core.domains[i].exitAllow == c.core.domains[i].exitAllow
    requires c'.core.endpoints - {node} == c.core.endpoints - {node}
            && c'.leases.offline - {node} == c.leases.offline - {node}
    ensures View(c', i)[n] == View(c, i)[n]
  {
    var e: map<NodeId, D.Endpoints>, e': map<NodeId, D.Endpoints> := c.core.endpoints, c'.core.endpoints;
    assert c.core.domains[i].registry.entries[n] == (c.core.domains[i].registry.entries - {node})[n];
    assert c'.core.domains[i].registry.entries[n] == (c'.core.domains[i].registry.entries - {node})[n];
    assert n in e <==> n in e - {node};
    assert n in e' <==> n in e' - {node};
    if n in e { assert e[n] == (e - {node})[n] && e'[n] == (e' - {node})[n]; }
    assert n in c.leases.offline <==> n in c.leases.offline - {node};
    assert n in c'.leases.offline <==> n in c'.leases.offline - {node};
  }

  /** A revocation of a registered node leaves a tombstone at its log position; of any other, none. */
  lemma TombstoneLeft(c: Coordinator, node: NodeId, now: nat, anchor: Anchor, orders: Orders)
    ensures var c' := Execute(c, Revoke(node, now), anchor, orders);
            if exists i :: 0 <= i < |c.core.domains| && node in c.core.domains[i].registry.entries
            then c'.core.revoked == c.core.revoked[node := anchor] && node !in c'.core.endpoints
                && node !in c'.leases.lastSeen
            else c'.core.revoked == c.core.revoked && c'.version == c.version
  {
    var ds := FlushAll(c.core.domains, now);
    var i := FindNode(ds, node);
    if i < |ds| { assert node in c.core.domains[i].registry.entries; }
    assert forall j :: 0 <= j < |ds| ==> ds[j].registry == c.core.domains[j].registry;
  }

  /** An admitted node shows up, under the next id, in the network of its key, with what it registered. */
  lemma AdmittedShown(c: Coordinator, cmd: Command, anchor: Anchor, orders: Orders) returns (i: nat)
    requires CoreOk(c.core) && cmd.Register? && RegisterNode(c.core, cmd, anchor).reply.Admitted?
    ensures var c' := Execute(c, cmd, anchor, orders);
            var n := c.core.nextNodeId;
            && i < |c.core.domains| == |c'.core.domains| && n !in View(c, i) && n in View(c', i)
            && View(c', i)[n].entry.pubkey == cmd.pubkey && View(c', i)[n].entry.capabilities == cmd.capabilities
            && View(c', i)[n].entry.routes == cmd.routes && View(c', i)[n].entry.anchor == anchor
            && View(c', i)[n].entry.binding == Signed(n, cmd.pubkey, anchor)
            && OnlyRow(c, c', i, n)
  {
    i := RegisterShape(c.core, cmd, anchor);
    var c' := Execute(c, cmd, anchor, orders);
    var n := c.core.nextNodeId;
    assert NewEntry(c.core.domains[i].registry, cmd, anchor, n, c'.core.domains[i].registry);
    assert c'.core.domains[i].registry.entries - {n} == c.core.domains[i].registry.entries - {n};
    OtherRows(c, c', i, n);
  }

  /** A heartbeat shows its sender online, expired leases offline and everyone else as before. */
  lemma BeatShown(c: Coordinator, node: NodeId, now: nat, i: nat, n: NodeId)
    requires i < |c.core.domains| && n in View(c, i)
    ensures var c' := Beat(c, node, now);
            && |c'.core.domains| == |c.core.domains| && n in View(c', i)
            && View(c', i)[n] == View(c, i)[n].(offline := n != node
                && (n in c.leases.offline || L.Expired(c.leases, n, now)))
  {
    L.HeartbeatSweeps(c.leases, node, now);
  }

  /** The exit mark of a row is the capability and the permission together. */
  lemma ExitsShown(c: Coordinator, name: string, allow: set<NodeId>, n: NodeId)
    requires var i := FindName(c.core.domains, name); i < |c.core.domains| && n in View(c, i)
    ensures var i, c' := FindName(c.core.domains, name), AllowExits(c, name, allow);
            && |c'.core.domains| == |c.core.domains| && n in View(c', i)
            && View(c', i)[n]
               == View(c, i)[n].(exit := HasCapability(View(c, i)[n].entry.capabilities, CAPABILITY_EXIT) && n in allow)
  {}
}
