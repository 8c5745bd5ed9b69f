/** The whole coordinator: the replicated core, the soft state beside it, and the version stamped on the network map. */
module CoordinatorModel {
  import opened Bytes
  import opened Prefixes
  import opened Registries
  import opened CoordCore
  import A = AuthKey
  import D = Directory
  import L = Liveness

  datatype Coordinator = Coordinator(core: Core, leases: L.Leases, version: nat, protocols: map<NodeId, nat>)

  datatype Op =
    | Logged(cmd: Command, anchor: Anchor, orders: Orders)
    | Heartbeat(node: NodeId, now: nat)
    | MarkOffline(node: NodeId)
    | Takeover(now: nat)
    | SetProtocol(node: NodeId, protocol: nat)
    | AddKey(key: string, policy: KeyPolicy)
    | RemoveKey(key: string)
    | SetWhitelist(name: string, whitelist: seq<Prefix>)
    | SetAcl(name: string, enabled: bool)
    | SetExitAllow(name: string, allow: set<NodeId>)

  // ----- configuration -----

  function UpdateDomain(c: Coordinator, name: string, d: Domain): Coordinator {
    var i := FindName(c.core.domains, name);
    if i == |c.core.domains| then c else c.(core := c.core.(domains := c.core.domains[i := d]))
  }

  function Named(c: Coordinator, name: string): Option<Domain> {
    var i := FindName(c.core.domains, name);
    if i == |c.core.domains| then None else Some(c.core.domains[i])
  }

  function WithRegistry(c: Coordinator, name: string, r: Registry): Coordinator {
    var d := Named(c, name);
    if d.None? then c else UpdateDomain(c, name, d.value.(registry := r))
  }

  /** A key goes to the network it names. */
  function ChangeKey(c: Coordinator, key: string, add: Option<KeyPolicy>): Coordinator {
    var parsed := A.Parse(key);
    if parsed.Bad? || Named(c, parsed.network).None? then c
    else
      var r := Named(c, parsed.network).value.registry;
      WithRegistry(c, parsed.network, if add.Some? then AddAuthKey(r, key, add.value) else RemoveAuthKey(r, key))
  }

  function Exits(d: Domain, allow: set<NodeId>): set<NodeId> {
    set n | n in d.registry.entries && HasCapability(d.registry.entries[n].capabilities, CAPABILITY_EXIT) && n in allow
  }

  /** The version moves only when the effective exits do. */
  function AllowExits(c: Coordinator, name: string, allow: set<NodeId>): Coordinator {
    var d := Named(c, name);
    if d.None? then c
    else
      var c' := UpdateDomain(c, name, d.value.(exitAllow := allow));
      if Exits(d.value, d.value.exitAllow) != Exits(d.value, allow) then c'.(version := c.version + 1) else c'
  }

  // ----- liveness -----

  function AllNodes(ds: seq<Domain>): set<NodeId> {
    if ds == [] then {} else AllNodes(ds[..|ds| - 1]) + ds[|ds| - 1].registry.entries.Keys
  }

  /** What is due rotates first; then the lease is renewed and all leases are swept. */
  function Beat(c: Coordinator, node: NodeId, now: nat): Coordinator {
    var beat := L.Heartbeat(c.leases, node, now);
    var moved := node in c.leases.offline || L.NewlyOffline(beat, now) != {};
    c.(core := c.core.(domains := FlushAll(c.core.domains, now)),
       leases := L.Sweep(beat, now),
       version := c.version + if moved then 1 else 0)
  }

  function Offline(c: Coordinator, node: NodeId): Coordinator {
    if FindNode(c.core.domains, node) == |c.core.domains| || node in c.leases.offline then c
    else c.(leases := c.leases.(offline := c.leases.offline + {node}), version := c.version + 1)
  }

  /** A new leader gives every known node a lease. */
  function TakeOver(c: Coordinator, now: nat): Coordinator {
    var nodes := AllNodes(c.core.domains);
    var seen := map n | n in c.leases.lastSeen.Keys + nodes :: if n in nodes then now else c.leases.lastSeen[n];
    c.(leases := L.Leases(seen, c.leases.offline - nodes), version := c.version + 1)
  }

  // ----- logged commands -----

  predicate RosterMoves(c: Core, id: u32, roster: seq<NodeId>) {
    var i := FindId(c.domains, id);
    i < |c.domains| && multiset(c.domains[i].table.relays) != multiset(roster)
  }

  /** A revocation of a registered node. */
  predicate Forgets(c: Core, cmd: Command) {
    cmd.Revoke? && FindNode(FlushAll(c.domains, cmd.now), cmd.node) < |c.domains|
  }

  /** How often a command bumps the version. */
  function Bumps(c: Core, cmd: Command, anchor: Anchor): nat {
    match cmd
    case Register(_, _, _, _, _) => if RegisterNode(c, cmd, anchor).reply.Admitted? then 1 else 0
    case Revoke(_, _) => if Forgets(c, cmd) then 1 else 0
    case SetEndpoints(_, _, _) => 1
    case SetRelayRoster(id, roster, now) => if RosterMoves(c, id, roster) then 1 else 0
    case RequestPaths(_, _, _, _) => 0
    case RotateMasterKey(_) => 0
    case FlushRevokeRotations(_) => 0
  }

  function Execute(c: Coordinator, cmd: Command, anchor: Anchor, orders: Orders): Coordinator {
    Coordinator(
      ApplyCommand(c.core, cmd, anchor, orders),
      if Forgets(c.core, cmd) then L.Forget(c.leases, cmd.node) else c.leases,
      c.version + Bumps(c.core, cmd, anchor),
      if Forgets(c.core, cmd) then c.protocols - {cmd.node} else c.protocols)
  }

  function Step(c: Coordinator, op: Op): Coordinator {
    match op
    case Logged(cmd, anchor, orders) => Execute(c, cmd, anchor, orders)
    case Heartbeat(node, now) => Beat(c, node, now)
    case MarkOffline(node) => Offline(c, node)
    case Takeover(now) => TakeOver(c, now)
    case SetProtocol(node, protocol) => c.(protocols := c.protocols[node := protocol])
    case AddKey(key, policy) => ChangeKey(c, key, Some(policy))
    case RemoveKey(key) => ChangeKey(c, key, None)
    case SetWhitelist(name, whitelist) =>
      if Named(c, name).None? then c else WithRegistry(c, name, Named(c, name).value.registry.(whitelist := whitelist))
    case SetAcl(name, enabled) =>
      if Named(c, name).None? then c
      else UpdateDomain(c, name, Named(c, name).value.(aclEnabled := enabled)).(version := c.version + 1)
    case SetExitAllow(name, allow) => AllowExits(c, name, allow)
  }

  // ----- the network map -----

  /** One row of the map, without the protocol version. */
  datatype NodeInfo = NodeInfo(entry: NodeEntry, endpoints: seq<string>, offline: bool, exit: bool)

  function Row(c: Coordinator, d: Domain, node: NodeId): NodeInfo
    requires node in d.registry.entries
  {
    NodeInfo(d.registry.entries[node],
             D.MergedOf(D.Entries(c.version, c.core.endpoints, c.protocols), node),
             node in c.leases.offline,
             HasCapability(d.registry.entries[node].capabilities, CAPABILITY_EXIT) && node in d.exitAllow)
  }

  function View(c: Coordinator, i: nat): map<NodeId, NodeInfo>
    requires i < |c.core.domains|
  {
    map n | n in c.core.domains[i].registry.entries :: Row(c, c.core.domains[i], n)
  }

  /** Same networks, same map in each. */
  ghost predicate SameMaps(a: Coordinator, b: Coordinator) {
    && |a.core.domains| == |b.core.domains|
    && forall i :: 0 <= i < |a.core.domains| ==> View(a, i) == View(b, i)
  }

  /** A step that only touches keys, paths and configuration outside the map. */
  ghost predicate SameRegistration(a: Coordinator, b: Coordinator) {
    && |a.core.domains| == |b.core.domains|
    && a.core.endpoints == b.core.endpoints && a.leases.offline == b.leases.offline
    && forall i :: 0 <= i < |a.core.domains| ==> SameRows(a.core.domains[i], b.core.domains[i])
  }

  ghost predicate SameRows(d: Domain, e: Domain) {
    d.registry.entries == e.registry.entries && Exits(d, d.exitAllow) == Exits(e, e.exitAllow)
  }

  lemma SameRegistrationSameMaps(a: Coordinator, b: Coordinator)
    requires SameRegistration(a, b)
    ensures SameMaps(a, b)
  {
    forall i | 0 <= i < |a.core.domains| ensures View(a, i) == View(b, i) { SameView(a, b, i); }
  }

  lemma SameView(a: Coordinator, b: Coordinator, i: nat)
    requires i < |a.core.domains| && i < |b.core.domains| && SameRows(a.core.domains[i], b.core.domains[i])
    requires a.core.endpoints == b.core.endpoints && a.leases.offline == b.leases.offline
    ensures View(a, i) == View(b, i)
  {
    var d, e := a.core.domains[i], b.core.domains[i];
    forall n | n in d.registry.entries ensures Row(a, d, n) == Row(b, e, n) {
      assert n in Exits(d, d.exitAllow) <==> n in Exits(e, e.exitAllow);
    }
  }

  lemma SameDomains(a: Coordinator, b: Coordinator, i: nat)
    requires |a.core.domains| == |b.core.domains| && i < |a.core.domains|
    requires b.core.domains == a.core.domains[i := b.core.domains[i]] && SameRows(a.core.domains[i], b.core.domains[i])
    requires a.core.endpoints == b.core.endpoints && a.leases.offline == b.leases.offline
    ensures SameRegistration(a, b)
  {}

  /** Either the version grows or the maps are the same. */
  ghost predicate Stamped(a: Coordinator, b: Coordinator) {
    b.version >= a.version && (b.version == a.version ==> SameRegistration(a, b))
  }

  lemma FlushStamped(c: Coordinator, now: nat)
    ensures SameRegistration(c, c.(core := c.core.(domains := FlushAll(c.core.domains, now))))
  {}

  lemma ExecuteStamped(c: Coordinator, cmd: Command, anchor: Anchor, orders: Orders)
    ensures Stamped(c, Execute(c, cmd, anchor, orders))
  {
    var c' := Execute(c, cmd, anchor, orders);
    if c'.version == c.version {
      match cmd
      case Register(_, _, _, _, _) => assert c'.core == c.core;
      case Revoke(node, now) => FlushStamped(c, now);
      case SetEndpoints(_, _, _) =>
      case RequestPaths(source, dest, max, now) => PathsStamped(c, cmd, anchor, orders);
      case SetRelayRoster(id, roster, now) => PathsStamped(c, cmd, anchor, orders);
      case RotateMasterKey(name) => PathsStamped(c, cmd, anchor, orders);
      case FlushRevokeRotations(now) => FlushStamped(c, now);
    }
  }

  lemma PathsStamped(c: Coordinator, cmd: Command, anchor: Anchor, orders: Orders)
    requires cmd.RequestPaths? || cmd.SetRelayRoster? || cmd.RotateMasterKey?
    ensures SameRegistration(c, Execute(c, cmd, anchor, orders))
  {
    var c' := Execute(c, cmd, anchor, orders);
    if c'.core != c.core {
      var i := if cmd.RequestPaths?
          then FindId(c.core.domains, c.core.domains[DomainOf(c.core.domains, cmd.source)].registry.networkId)
               else if cmd.SetRelayRoster? then FindId(c.core.domains, cmd.network)
               else FindName(c.core.domains, cmd.name);
      SameDomains(c, c', i);
    }
  }

  lemma BeatStamped(c: Coordinator, node: NodeId, now: nat)
    ensures Stamped(c, Beat(c, node, now))
  {
    L.HeartbeatSweeps(c.leases, node, now);
    FlushStamped(c, now);
  }

  lemma ConfigStamped(c: Coordinator, name: string, d: Domain)
    requires Named(c, name).Some? && SameRows(Named(c, name).value, d)
    ensures SameRegistration(c, UpdateDomain(c, name, d))
  {
    SameDomains(c, UpdateDomain(c, name, d), FindName(c.core.domains, name));
  }

  lemma KeyStamped(c: Coordinator, key: string, add: Option<KeyPolicy>)
    ensures SameRegistration(c, ChangeKey(c, key, add)) && ChangeKey(c, key, add).version == c.version
  {
    var parsed := A.Parse(key);
    if parsed.Key? && Named(c, parsed.network).Some? {
      var d := Named(c, parsed.network).value;
      var r := if add.Some? then AddAuthKey(d.registry, key, add.value) else RemoveAuthKey(d.registry, key);
      ConfigStamped(c, parsed.network, d.(registry := r));
    }
  }

  lemma ExitsStamped(c: Coordinator, name: string, allow: set<NodeId>)
    ensures Stamped(c, AllowExits(c, name, allow))
  {
    var d := Named(c, name);
    if d.Some? && Exits(d.value, d.value.exitAllow) == Exits(d.value, allow) {
      ConfigStamped(c, name, d.value.(exitAllow := allow));
    }
  }

  lemma StepStamped(c: Coordinator, op: Op)
    ensures Stamped(c, Step(c, op))
  {
    match op
    case Logged(cmd, anchor, orders) => ExecuteStamped(c, cmd, anchor, orders);
    case Heartbeat(node, now) => BeatStamped(c, node, now);
    case MarkOffline(node) =>
    case Takeover(now) =>
    case SetProtocol(node, protocol) =>
    case AddKey(key, policy) => KeyStamped(c, key, Some(policy));
    case RemoveKey(key) => KeyStamped(c, key, None);
    case SetWhitelist(name, whitelist) =>
      if Named(c, name).Some? {
        var d := Named(c, name).value;
        ConfigStamped(c, name, d.(registry := d.registry.(whitelist := whitelist)));
      }
    case SetAcl(name, enabled) =>
    case SetExitAllow(name, allow) => ExitsStamped(c, name, allow);
  }

  function Run(c: Coordinator, ops: seq<Op>): Coordinator {
    if ops == [] then c else Step(Run(c, ops[..|ops| - 1]), ops[|ops| - 1])
  }

  lemma {:induction false} RunStamped(c: Coordinator, ops: seq<Op>)
    ensures Stamped(c, Run(c, ops))
  {
    if ops != [] {
      RunStamped(c, ops[..|ops| - 1]);
      StepStamped(Run(c, ops[..|ops| - 1]), ops[|ops| - 1]);
    }
  }

  lemma {:induction false} RunConcat(c: Coordinator, a: seq<Op>, b: seq<Op>)
    ensures Run(c, a + b) == Run(Run(c, a), b)
  {
    if b == [] {
      assert a + b == a;
    } else {
      RunConcat(c, a, b[..|b| - 1]);
      assert (a + b)[..|a + b| - 1] == a + b[..|b| - 1];
    }
  }

  /** Two moments of a run with the same version have the same map in every network. */
  lemma SameVersionSameMap(c: Coordinator, ops: seq<Op>, m: nat, n: nat)
    requires m <= n <= |ops| && Run(c, ops[..m]).version == Run(c, ops[..n]).version
    ensures SameMaps(Run(c, ops[..m]), Run(c, ops[..n]))
  {
    assert ops[..n] == ops[..m] + ops[m..n];
    RunConcat(c, ops[..m], ops[m..n]);
    RunStamped(Run(c, ops[..m]), ops[m..n]);
    SameRegistrationSameMaps(Run(c, ops[..m]), Run(c, ops[..n]));
  }

  /** The protocol version is the exception: it changes what is sent without a bump. */
  lemma ProtocolUnstamped(c: Coordinator, node: NodeId, protocol: nat)
    requires D.ProtocolOf(D.Entries(c.version, c.core.endpoints, c.protocols), node) != protocol
    ensures var c' := Step(c, SetProtocol(node, protocol));
            && c'.version == c.version && SameMaps(c, c')
            && D.ProtocolOf(D.Entries(c'.version, c'.core.endpoints, c'.protocols), node)
               != D.ProtocolOf(D.Entries(c.version, c.core.endpoints, c.protocols), node)
  {
    SameRegistrationSameMaps(c, Step(c, SetProtocol(node, protocol)));
  }
}
