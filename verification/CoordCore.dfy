/**
 * The replicated part of the coordinator: its networks, the id allocator, endpoints and tombstones, and the logged
 * commands on them.
 */
module CoordCore {
  import opened Bytes
  import opened Prefixes
  import opened Registries
  import A = AuthKey
  import D = Directory
  import K = KeyRotation
  import M = PathMirror
  import N = NetworkDomain
  import P = PathModel

  const CAPABILITY_EXIT: nat := 0x08
  const CAPABILITY_ACL: nat := 0x40

  predicate HasCapability(capabilities: u32, flag: nat)
    requires flag > 0
  {
    var c: nat := capabilities;
    c / flag % 2 == 1
  }

  /** One network. The relays of the path table are its roster. */
  datatype Domain = Domain(
    name: string, registry: Registry, keys: K.Keys, table: P.Table, aclEnabled: bool, exitAllow: set<NodeId>)

  datatype Core = Core(
    domains: seq<Domain>, nextNodeId: NodeId, endpoints: map<NodeId, D.Endpoints>, revoked: map<NodeId, Anchor>)

  datatype Command =
    | Register(key: string, pubkey: Pubkey, capabilities: u32, routes: seq<Route>, now: nat)
    | Revoke(node: NodeId, now: nat)
    | SetEndpoints(node: NodeId, local: seq<string>, seen: seq<string>)
    | RequestPaths(source: NodeId, dest: NodeId, max: nat, now: nat)
    | SetRelayRoster(network: u32, roster: seq<NodeId>, now: nat)
    | RotateMasterKey(name: string)
    | FlushRevokeRotations(now: nat)

  /** The orders in which hash maps happened to list the pairs a command visited. */
  datatype Orders = Orders(pass: seq<P.Pair>, drops: seq<seq<P.Pair>>)

  // ----- finding a network -----

  function FindName(ds: seq<Domain>, name: string): (r: nat)
    ensures r <= |ds|
    ensures r < |ds| ==> ds[r].name == name
    ensures forall i :: 0 <= i < r ==> ds[i].name != name
  {
    if ds == [] then 0
    else
      var front := ds[..|ds| - 1];
      var r := FindName(front, name);
      if r < |front| || ds[|ds| - 1].name == name then r else |ds|
  }

  function FindId(ds: seq<Domain>, id: u32): (r: nat)
    ensures r <= |ds|
    ensures r < |ds| ==> ds[r].registry.networkId == id
    ensures forall i :: 0 <= i < r ==> ds[i].registry.networkId != id
  {
    if ds == [] then 0
    else
      var front := ds[..|ds| - 1];
      var r := FindId(front, id);
      if r < |front| || ds[|ds| - 1].registry.networkId == id then r else |ds|
  }

  function FindNode(ds: seq<Domain>, node: NodeId): (r: nat)
    ensures r <= |ds|
    ensures r < |ds| ==> node in ds[r].registry.entries
    ensures forall i :: 0 <= i < r ==> node !in ds[i].registry.entries
  {
    if ds == [] then 0
    else
      var front := ds[..|ds| - 1];
      var r := FindNode(front, node);
      if r < |front| || node in ds[|ds| - 1].registry.entries then r else |ds|
  }

  /** The network a node's entry names. */
  function DomainOf(ds: seq<Domain>, node: NodeId): (r: nat)
    ensures r <= |ds|
  {
    var i := FindNode(ds, node);
    if i == |ds| then |ds| else FindId(ds, ds[i].registry.entries[node].networkId)
  }

  // ----- commands -----

  function FlushAll(ds: seq<Domain>, now: nat): (r: seq<Domain>)
    ensures |r| == |ds|
    ensures forall i :: 0 <= i < |ds| ==> r[i] == ds[i].(keys := K.Take(ds[i].keys, now))
  {
    if ds == [] then []
    else
      var last := ds[|ds| - 1];
      FlushAll(ds[..|ds| - 1], now) + [last.(keys := K.Take(last.keys, now))]
  }

  /** What one network's path service does; a roster change that lists the wrong number of passes did not happen. */
  function PathStep(t: P.Table, op: N.DomainOp): P.Table {
    if op.ApplyRoster? && |op.drops| != |N.Dropped(t.relays, op.roster)| then t
    else M.RunFrom(t, N.Calls(t, op)).table
  }

  datatype Reply = Admitted(node: NodeId) | Known(node: NodeId) | Refused(error: RegisterError)

  datatype Registration = Registration(core: Core, reply: Reply)

  /**
   * The key names the network and carries the expiry; a network with access control wants the capability; the registry
   * decides.
   */
  function RegisterNode(c: Core, cmd: Command, anchor: Anchor): Registration
    requires cmd.Register?
  {
    var parsed := A.Parse(cmd.key);
    if parsed.Bad? || (parsed.expiry != 0 && cmd.now > parsed.expiry) then Registration(c, Refused(InvalidAuthKey))
    else
      var i := FindName(c.domains, parsed.network);
      if i == |c.domains| then Registration(c, Refused(InvalidAuthKey))
      else if c.domains[i].aclEnabled && !HasCapability(cmd.capabilities, CAPABILITY_ACL) then
        Registration(c, Refused(AclCapabilityRequired))
      else
        var d := c.domains[i];
        match Registries.Register(d.registry, cmd.key, cmd.pubkey, cmd.capabilities, cmd.routes, c.nextNodeId, anchor)
        case Rejected(e) => Registration(c, Refused(e))
        case Existing(node) => Registration(c, Known(node))
        case NewNode(r) =>
          Registration(c.(domains := c.domains[i := d.(registry := r)], nextNodeId := c.nextNodeId + 1),
              Admitted(c.nextNodeId))
  }

  /** One network after losing a node: entry, paths and roster place go, a rotation is armed. */
  function DropNode(d: Domain, node: NodeId, now: nat, pass: seq<P.Pair>): Domain {
    d.(registry := Registries.Revoke(d.registry, node),
       keys := K.Arm(d.keys, now + K.REVOKE_ROTATION_WINDOW_SECS),
       table := PathStep(d.table, N.Revoke(node, pass)))
  }

  function RevokeNode(c: Core, node: NodeId, now: nat, anchor: Anchor, orders: Orders): Core {
    var ds := FlushAll(c.domains, now);
    var i := FindNode(ds, node);
    if i == |ds| then c.(domains := ds)
    else Core(ds[i := DropNode(ds[i], node, now, orders.pass)], c.nextNodeId, c.endpoints - {node},
        c.revoked[node := anchor])
  }

  /** A revocation of a registered node, part by part. */
  lemma RevokeIs(c: Core, node: NodeId, now: nat, anchor: Anchor, orders: Orders, ds: seq<Domain>, i: nat, d: Domain)
    requires ds == FlushAll(c.domains, now) && i == FindNode(ds, node) && i < |ds|
            && d == DropNode(ds[i], node, now, orders.pass)
    ensures RevokeNode(c, node, now, anchor, orders)
         == Core(ds[i := d], c.nextNodeId, c.endpoints - {node}, c.revoked[node := anchor])
  {}

  function UpdateTable(c: Core, i: nat, op: N.DomainOp): Core
    requires i < |c.domains|
  {
    var d := c.domains[i];
    c.(domains := c.domains[i := d.(table := PathStep(d.table, op))])
  }

  /** Paths exist only inside one network. */
  function RequestNodePaths(c: Core, source: NodeId, dest: NodeId, max: nat, now: nat): Core {
    var i, j := DomainOf(c.domains, source), DomainOf(c.domains, dest);
    if i == |c.domains| || j == |c.domains| || c.domains[i].registry.networkId != c.domains[j].registry.networkId then c
    else UpdateTable(c, FindId(c.domains, c.domains[i].registry.networkId),
        N.RequestPaths(P.Pair(source, dest), max, now))
  }

  function ApplyCommand(c: Core, cmd: Command, anchor: Anchor, orders: Orders): Core {
    match cmd
    case Register(_, _, _, _, _) => RegisterNode(c, cmd, anchor).core
    case Revoke(node, now) => RevokeNode(c, node, now, anchor, orders)
    case SetEndpoints(node, local, seen) => c.(endpoints := c.endpoints[node := D.Endpoints(local, seen)])
    case RequestPaths(source, dest, max, now) => RequestNodePaths(c, source, dest, max, now)
    case SetRelayRoster(id, roster, now) =>
      var i := FindId(c.domains, id);
      if i == |c.domains| then c else UpdateTable(c, i, N.ApplyRoster(roster, orders.drops, orders.pass, now))
    case RotateMasterKey(name) =>
      var i := FindName(c.domains, name);
      if i == |c.domains| then c
      else c.(domains := c.domains[i := c.domains[i].(keys := K.Rotate(c.domains[i].keys))])
    case FlushRevokeRotations(now) => c.(domains := FlushAll(c.domains, now))
  }

  // ----- the invariant -----

  ghost predicate NetworksDistinct(ds: seq<Domain>) {
    forall i, j :: 0 <= i < j < |ds| ==>
        ds[i].name != ds[j].name && ds[i].registry.networkId != ds[j].registry.networkId
  }

  /** No node id lives in two networks. */
  ghost predicate NodesApart(ds: seq<Domain>) {
    forall i, j, n :: 0 <= i < j < |ds| && n in ds[i].registry.entries ==> n !in ds[j].registry.entries
  }

  /** Spent keys belong to the network they name. */
  ghost predicate SpentHome(d: Domain) {
    forall k :: k in d.registry.consumed ==> A.Parse(k).Key? && A.Parse(k).network == d.name
  }

  ghost predicate TombstonesOk(c: Core) {
    forall n :: n in c.revoked ==> n < c.nextNodeId && forall i :: 0 <= i < |c.domains| ==>
        n !in c.domains[i].registry.entries
  }

  ghost predicate CoreOk(c: Core) {
    && c.nextNodeId > 0
    && NetworksDistinct(c.domains) && NodesApart(c.domains) && TombstonesOk(c)
    && forall i :: 0 <= i < |c.domains| ==> RegistryOk(c.domains[i].registry, c.nextNodeId) && SpentHome(c.domains[i])
  }

  /** Replacing one network's registry by one whose nodes are among the old ones and a fresh one. */
  lemma ReplaceOk(c: Core, i: nat, d: Domain, next: NodeId)
    requires CoreOk(c) && i < |c.domains| && c.nextNodeId <= next
    requires d.name == c.domains[i].name && d.registry.networkId == c.domains[i].registry.networkId
    requires RegistryOk(d.registry, next) && SpentHome(d)
    requires forall n :: n in d.registry.entries ==> n in c.domains[i].registry.entries || c.nextNodeId <= n
    ensures CoreOk(c.(domains := c.domains[i := d], nextNodeId := next))
  {
    var c' := c.(domains := c.domains[i := d], nextNodeId := next);
    forall j | 0 <= j < |c'.domains| ensures RegistryOk(c'.domains[j].registry, next) {
      assert j != i ==> c'.domains[j] == c.domains[j];
    }
  }

  lemma RegisterCoreOk(c: Core, cmd: Command, anchor: Anchor)
    requires CoreOk(c) && cmd.Register?
    ensures CoreOk(RegisterNode(c, cmd, anchor).core)
  {
    var i := RegisterShape(c, cmd, anchor);
    var x := RegisterNode(c, cmd, anchor);
    if x.reply.Admitted? {
      RegistryKept(c, cmd, anchor, i);
      AdmittedOk(c, cmd, anchor, i, x.core);
    }
  }

  lemma RegistryKept(c: Core, cmd: Command, anchor: Anchor, i: nat)
    requires CoreOk(c) && cmd.Register? && RegisterNode(c, cmd, anchor).reply.Admitted? && i < |c.domains|
    requires A.Parse(cmd.key).Key? && A.Parse(cmd.key).network == c.domains[i].name
    ensures i < |RegisterNode(c, cmd, anchor).core.domains|
    ensures RegistryOk(RegisterNode(c, cmd, anchor).core.domains[i].registry, c.nextNodeId + 1)
  {
    var d := c.domains[i];
    assert RegistryOk(d.registry, c.nextNodeId);
    RegisterOk(d.registry, cmd.key, cmd.pubkey, cmd.capabilities, cmd.routes, c.nextNodeId, anchor);
  }

  lemma AdmittedOk(c: Core, cmd: Command, anchor: Anchor, i: nat, c': Core)
    requires CoreOk(c) && cmd.Register? && AdmittedAt(c, cmd, anchor, i, c')
    requires RegistryOk(c'.domains[i].registry, c.nextNodeId + 1)
    ensures CoreOk(c')
  {
    assert SpentHome(c.domains[i]);
    ReplaceOk(c, i, c'.domains[i], c.nextNodeId + 1);
  }

  lemma FlushOk(c: Core, now: nat)
    requires CoreOk(c)
    ensures CoreOk(c.(domains := FlushAll(c.domains, now)))
  {
    var ds := FlushAll(c.domains, now);
    assert forall i :: 0 <= i < |ds| ==> ds[i].registry == c.domains[i].registry && ds[i].name == c.domains[i].name;
  }

  lemma RevokeCoreOk(c: Core, node: NodeId, now: nat, anchor: Anchor, orders: Orders)
    requires CoreOk(c)
    ensures CoreOk(RevokeNode(c, node, now, anchor, orders))
  {
    FlushOk(c, now);
    var b := c.(domains := FlushAll(c.domains, now));
    var i := FindNode(b.domains, node);
    if i < |b.domains| {
      var d := DropNode(b.domains[i], node, now, orders.pass);
      RevokeOk(b.domains[i].registry, node, b.nextNodeId);
      ReplaceOk(b, i, d, b.nextNodeId);
      assert NodesApart(b.domains);
      TombstoneAdded(b.(domains := b.domains[i := d]), node, anchor, c.endpoints - {node});
    }
  }

  lemma TombstoneAdded(c: Core, node: NodeId, anchor: Anchor, endpoints: map<NodeId, D.Endpoints>)
    requires CoreOk(c) && node < c.nextNodeId
    requires forall i :: 0 <= i < |c.domains| ==> node !in c.domains[i].registry.entries
    ensures CoreOk(c.(revoked := c.revoked[node := anchor], endpoints := endpoints))
  {}

  /** A change of keys or paths of one network. */
  lemma SideChangeOk(c: Core, i: nat, d: Domain)
    requires CoreOk(c) && i < |c.domains| && d.name == c.domains[i].name && d.registry == c.domains[i].registry
    ensures CoreOk(c.(domains := c.domains[i := d]))
  {
    ReplaceOk(c, i, d, c.nextNodeId);
  }

  lemma ApplyOk(c: Core, cmd: Command, anchor: Anchor, orders: Orders)
    requires CoreOk(c)
    ensures CoreOk(ApplyCommand(c, cmd, anchor, orders))
  {
    match cmd
    case Register(_, _, _, _, _) => RegisterCoreOk(c, cmd, anchor);
    case Revoke(node, now) => RevokeCoreOk(c, node, now, anchor, orders);
    case SetEndpoints(_, _, _) =>
    case RequestPaths(source, dest, max, now) => RequestOk(c, source, dest, max, now);
    case SetRelayRoster(id, roster, now) => RosterOk(c, id, N.ApplyRoster(roster, orders.drops, orders.pass, now));
    case RotateMasterKey(name) => RotateOk(c, name);
    case FlushRevokeRotations(now) => FlushOk(c, now);
  }

  lemma RequestOk(c: Core, source: NodeId, dest: NodeId, max: nat, now: nat)
    requires CoreOk(c)
    ensures CoreOk(RequestNodePaths(c, source, dest, max, now))
  {
    var x := RequestNodePaths(c, source, dest, max, now);
    if x != c {
      var i := FindId(c.domains, c.domains[DomainOf(c.domains, source)].registry.networkId);
      SideChangeOk(c, i, x.domains[i]);
    }
  }

  lemma RosterOk(c: Core, id: u32, op: N.DomainOp)
    requires CoreOk(c)
    ensures FindId(c.domains, id) < |c.domains| ==> CoreOk(UpdateTable(c, FindId(c.domains, id), op))
  {
    var i := FindId(c.domains, id);
    if i < |c.domains| { SideChangeOk(c, i, UpdateTable(c, i, op).domains[i]); }
  }

  lemma RotateOk(c: Core, name: string)
    requires CoreOk(c)
    ensures CoreOk(ApplyCommand(c, RotateMasterKey(name), Anchor(0, 0), Orders([], [])))
  {
    var i := FindName(c.domains, name);
    if i < |c.domains| { SideChangeOk(c, i, c.domains[i].(keys := K.Rotate(c.domains[i].keys))); }
  }

  /** In a good core the entry of a node names the one network that holds it. */
  lemma HomeOf(c: Core, node: NodeId)
    requires CoreOk(c)
    ensures DomainOf(c.domains, node) == FindNode(c.domains, node)
    ensures forall i :: 0 <= i < |c.domains| && node in c.domains[i].registry.entries ==> i == FindNode(c.domains, node)
  {
    var i := FindNode(c.domains, node);
    if i < |c.domains| {
      var e := c.domains[i].registry.entries[node];
      assert e.networkId == c.domains[i].registry.networkId;
    }
  }

  /**
   * What an admission changes: one entry under the next id in the network the key names, and what the key's policy
   * spends.
   */
  ghost predicate AdmittedAt(c: Core, cmd: Command, anchor: Anchor, i: nat, c': Core)
    requires cmd.Register?
  {
    && i < |c.domains| && A.Parse(cmd.key).Key? && A.Parse(cmd.key).network == c.domains[i].name
    && |c'.domains| == |c.domains|
    && c' == c.(domains := c.domains[i := c.domains[i].(registry := c'.domains[i].registry)],
        nextNodeId := c.nextNodeId + 1)
    && NewEntry(c.domains[i].registry, cmd, anchor, c.nextNodeId, c'.domains[i].registry)
  }

  ghost predicate NewEntry(r: Registry, cmd: Command, anchor: Anchor, node: NodeId, r': Registry)
    requires cmd.Register?
  {
    && node !in r.entries && cmd.key in r.authKeys && cmd.key !in r.consumed
    && (forall n :: n in r.entries ==> r.entries[n].pubkey != cmd.pubkey)
    && r'.entries == r.entries[node := MakeEntry(r, cmd.pubkey, cmd.capabilities, cmd.routes, node, anchor)]
    && r'.networkId == r.networkId && r'.whitelist == r.whitelist
    && (r.authKeys[cmd.key] == OneTime ==>
        r'.authKeys == r.authKeys - {cmd.key} && r'.consumed == r.consumed + {cmd.key})
    && (r.authKeys[cmd.key] == Reusable ==> r'.authKeys == r.authKeys && r'.consumed == r.consumed)
  }

  lemma RegisterShape(c: Core, cmd: Command, anchor: Anchor) returns (i: nat)
    requires CoreOk(c) && cmd.Register?
    ensures var x := RegisterNode(c, cmd, anchor);
            if x.reply.Admitted? then x.reply.node == c.nextNodeId
                && AdmittedAt(c, cmd, anchor, i, x.core) else x.core == c
  {
    i := if A.Parse(cmd.key).Key? then FindName(c.domains, A.Parse(cmd.key).network) else 0;
    if i < |c.domains| {
      var r := c.domains[i].registry;
      assert RegistryOk(r, c.nextNodeId);
      RegisterMeans(r, cmd.key, cmd.pubkey, cmd.capabilities, cmd.routes, c.nextNodeId, anchor);
    }
  }

  /** The conditions for admission, whatever the order they are looked at. */
  ghost predicate Admissible(c: Core, cmd: Command)
    requires cmd.Register?
  {
    var parsed := A.Parse(cmd.key);
    && parsed.Key? && (parsed.expiry == 0 || cmd.now <= parsed.expiry)
    && exists i :: 0 <= i < |c.domains| && c.domains[i].name == parsed.network && AdmissibleIn(c.domains[i], cmd)
  }

  ghost predicate AdmissibleIn(d: Domain, cmd: Command)
    requires cmd.Register?
  {
    && (d.aclEnabled ==> HasCapability(cmd.capabilities, CAPABILITY_ACL))
    && cmd.key in d.registry.authKeys
    && (forall n :: n in d.registry.entries ==> d.registry.entries[n].pubkey != cmd.pubkey)
    && (forall i :: 0 <= i < |cmd.routes| ==>
        cmd.routes[i].prefix.Some? && Allowed(d.registry, cmd.routes[i].prefix.value))
  }

  /** A registration is admitted exactly when all its conditions hold. */
  lemma AdmittedExactly(c: Core, cmd: Command, anchor: Anchor)
    requires CoreOk(c) && cmd.Register?
    ensures RegisterNode(c, cmd, anchor).reply.Admitted? <==> Admissible(c, cmd)
  {
    var parsed := A.Parse(cmd.key);
    if parsed.Key? {
      var i := FindName(c.domains, parsed.network);
      if i < |c.domains| {
        AdmittedIn(c, i, cmd, anchor);
        assert forall j :: 0 <= j < |c.domains| && c.domains[j].name == parsed.network ==> j == i;
      }
    }
  }

  lemma AdmittedIn(c: Core, i: nat, cmd: Command, anchor: Anchor)
    requires CoreOk(c) && cmd.Register? && i < |c.domains|
    ensures var d := c.domains[i];
            var r := Registries.Register(d.registry, cmd.key, cmd.pubkey, cmd.capabilities, cmd.routes, c.nextNodeId,
                anchor);
            (r.NewNode? && (d.aclEnabled ==> HasCapability(cmd.capabilities, CAPABILITY_ACL))) <==> AdmissibleIn(d, cmd)
  {
    var r := c.domains[i].registry;
    assert RegistryOk(r, c.nextNodeId);
    RoutesAllowed(r, cmd.routes);
    UnknownKey(r, cmd.pubkey);
  }

  lemma UnknownKey(r: Registry, pubkey: Pubkey)
    requires IndexOk(r)
    ensures pubkey !in r.pubkeys <==> forall n :: n in r.entries ==> r.entries[n].pubkey != pubkey
  {}
}
