/** The coordinator as the object it is: every call against the step it takes, and the version it leaves. */
module Coordinator {
  import opened Bytes
  import opened Registries
  import opened CoordCore
  import opened CoordinatorModel
  import A = AuthKey
  import D = Directory
  import K = KeyRotation
  import L = Liveness
  import N = NetworkDomain

  /** A revocation as a step, part by part. */
  lemma RevokeStep(c: Coordinator, node: NodeId, now: nat, anchor: Anchor, orders: Orders, x: Core, known: bool)
    requires x == RevokeNode(c.core, node, now, anchor, orders)
    requires known <==> Forgets(c.core, Command.Revoke(node, now))
    ensures Step(c, Logged(Command.Revoke(node, now), anchor, orders))
         == if known then Coordinator(x, L.Forget(c.leases, node), c.version + 1, c.protocols - {node})
            else c.(core := x)
  {}

  class CoordinatorObject {
    var domains: seq<Domain>
    var nextNodeId: NodeId
    var endpoints: map<NodeId, D.Endpoints>
    var revoked: map<NodeId, Anchor>
    var leases: L.Leases
    var version: nat
    var protocols: map<NodeId, nat>

    function TheCore(): Core
      reads this
    {
      Core(domains, nextNodeId, endpoints, revoked)
    }

    function Value(): CoordinatorModel.Coordinator
      reads this
    {
      CoordinatorModel.Coordinator(TheCore(), leases, version, protocols)
    }

    constructor (networks: seq<Domain>)
      ensures Value() == CoordinatorModel.Coordinator(Core(networks, 1, map[], map[]), L.NOBODY, 0, map[])
    {
      domains, nextNodeId, endpoints, revoked := networks, 1, map[], map[];
      leases, version, protocols := L.NOBODY, 0, map[];
    }

    /** Registers a node; ids are taken only by admissions. */
    method RegisterNew(key: string, pubkey: Pubkey, capabilities: u32, routes: seq<Route>, now: nat, anchor: Anchor)
        returns (reply: Reply)
      modifies this`domains, this`nextNodeId, this`version
      ensures var cmd := Command.Register(key, pubkey, capabilities, routes, now);
              && Value() == Step(old(Value()), Logged(cmd, anchor, Orders([], [])))
              && reply == RegisterNode(old(TheCore()), cmd, anchor).reply
    {
      var parsed := A.Parse(key);
      if parsed.Bad? || (parsed.expiry != 0 && now > parsed.expiry) { return Refused(InvalidAuthKey); }
      var i := FindName(domains, parsed.network);
      if i == |domains| { return Refused(InvalidAuthKey); }
      var d := domains[i];
      if d.aclEnabled && !HasCapability(capabilities, CAPABILITY_ACL) { return Refused(AclCapabilityRequired); }
      var outcome := Registries.Register(d.registry, key, pubkey, capabilities, routes, nextNodeId, anchor);
      match outcome
      case Rejected(e) => return Refused(e);
      case Existing(node) => return Known(node);
      case NewNode(r) =>
        reply := Admitted(nextNodeId);
        domains := domains[i := d.(registry := r)];
        nextNodeId := nextNodeId + 1;
        version := version + 1;
    }

    /** Takes the rotations that are due, network by network. */
    method FlushRotations(now: nat) returns (rotated: bool)
      modifies this`domains
      ensures domains == FlushAll(old(domains), now)
      ensures rotated <==> exists i :: 0 <= i < |old(domains)| && K.Due(old(domains)[i].keys, now)
    {
      rotated := false;
      for i := 0 to |domains|
        invariant |domains| == |old(domains)|
        invariant forall j :: 0 <= j < i ==> domains[j] == old(domains)[j].(keys := K.Take(old(domains)[j].keys, now))
        invariant forall j :: i <= j < |domains| ==> domains[j] == old(domains)[j]
        invariant rotated <==> exists j :: 0 <= j < i && K.Due(old(domains)[j].keys, now)
      {
        var d := domains[i];
        rotated := rotated || K.Due(d.keys, now);
        domains := domains[i := d.(keys := K.Take(d.keys, now))];
      }
    }

    /** The replicated part of a revocation. */
    method DropEverywhere(node: NodeId, now: nat, anchor: Anchor, orders: Orders) returns (known: bool)
      modifies this`domains, this`endpoints, this`revoked
      ensures TheCore() == RevokeNode(old(TheCore()), node, now, anchor, orders)
      ensures known <==> Forgets(old(TheCore()), Command.Revoke(node, now))
    {
      var _ := FlushRotations(now);
      var i := FindNode(domains, node);
      known := i < |domains|;
      if known {
        domains := domains[i := DropNode(domains[i], node, now, orders.pass)];
        endpoints := endpoints - {node};
        revoked := revoked[node := anchor];
      }
    }

    /** Everything of a node goes at once, except that its network's rotation joins the open window. */
    method RevokeOne(node: NodeId, now: nat, anchor: Anchor, orders: Orders)
      modifies this
      ensures Value() == Step(old(Value()), Logged(Command.Revoke(node, now), anchor, orders))
    {
      var known := DropEverywhere(node, now, anchor, orders);
      RevokeStep(old(Value()), node, now, anchor, orders, TheCore(), known);
      if known {
        leases := L.Forget(leases, node);
        protocols := protocols - {node};
        version := version + 1;
      }
    }

    /** Renews a lease, sweeps all leases, and bumps the version when anyone came or went. */
    method Beat(node: NodeId, now: nat) returns (wasOffline: bool)
      modifies this`domains, this`leases, this`version
      ensures Value() == Step(old(Value()), Heartbeat(node, now)) && wasOffline == (node in old(leases).offline)
    {
      var _ := FlushRotations(now);
      wasOffline := node in leases.offline;
      leases := L.Heartbeat(leases, node, now);
      var gone := L.NewlyOffline(leases, now);
      leases := L.Sweep(leases, now);
      if wasOffline || gone != {} { version := version + 1; }
    }

    method MarkNodeOffline(node: NodeId)
      modifies this`leases, this`version
      ensures Value() == Step(old(Value()), MarkOffline(node))
    {
      if FindNode(domains, node) < |domains| && node !in leases.offline {
        leases := leases.(offline := leases.offline + {node});
        version := version + 1;
      }
    }

    method ReportEndpoints(node: NodeId, local: seq<string>, seen: seq<string>, anchor: Anchor)
      modifies this`endpoints, this`version
      ensures Value() == Step(old(Value()), Logged(Command.SetEndpoints(node, local, seen), anchor, Orders([], [])))
    {
      endpoints := endpoints[node := D.Endpoints(local, seen)];
      version := version + 1;
    }

    /** Installs a roster; the version moves when the set of relays does, not when only their order does. */
    method ApplyRelayRoster(network: u32, roster: seq<NodeId>, now: nat, anchor: Anchor, orders: Orders)
        returns (changed: bool)
      modifies this`domains, this`version
      ensures Value() == Step(old(Value()), Logged(Command.SetRelayRoster(network, roster, now), anchor, orders))
      ensures changed == RosterMoves(old(TheCore()), network, roster)
    {
      var i := FindId(domains, network);
      if i == |domains| { return false; }
      var d := domains[i];
      changed := multiset(d.table.relays) != multiset(roster);
      domains := domains[i := d.(table := PathStep(d.table, N.ApplyRoster(roster, orders.drops, orders.pass, now)))];
      if changed { version := version + 1; }
    }

    /** Sets who may serve as an exit; the version moves when the effective exits do. */
    method AllowExitNodes(name: string, allow: set<NodeId>)
      modifies this`domains, this`version
      ensures Value() == Step(old(Value()), SetExitAllow(name, allow))
    {
      var i := FindName(domains, name);
      if i == |domains| { return; }
      var d := domains[i];
      domains := domains[i := d.(exitAllow := allow)];
      if Exits(d, d.exitAllow) != Exits(d, allow) { version := version + 1; }
    }

    /** The map of one network, row by row. */
    method NetmapSnapshot(i: nat) returns (rows: map<NodeId, NodeInfo>)
      requires i < |domains|
      ensures rows == View(Value(), i)
    {
      rows := map[];
      var left := domains[i].registry.entries.Keys;
      while left != {}
        invariant left <= domains[i].registry.entries.Keys
        invariant rows == map n | n in domains[i].registry.entries && n !in left :: Row(Value(), domains[i], n)
        decreases |left|
      {
        var n :| n in left;
        left := left - {n};
        rows := rows[n := Row(Value(), domains[i], n)];
      }
    }
  }
}
