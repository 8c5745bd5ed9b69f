/** The replicated state machine as a function of the log, and what holds after every prefix of it. */
module Machine {
  import opened Prefixes
  import opened NetworkIds
  import opened Registries
  import opened CoordCore
  import opened Persistence
  import opened Recovery
  import A = AuthKey

  datatype Payload = Blank | Membership(members: seq<nat>) | Normal(cmd: Command)

  /** The index of an entry is its position in the log. */
  datatype Entry = Entry(term: nat, payload: Payload)

  // ----- the log as a function -----

  function ApplyEntry(c: Core, e: Entry, index: nat, orders: Orders): Core {
    if e.payload.Normal? then ApplyCommand(c, e.payload.cmd, Anchor(index, e.term), orders) else c
  }

  /** Each of the first n entries once, in order. */
  function Fold(config: seq<NetConfig>, log: seq<Entry>, n: nat, orders: seq<Orders>): Core
    requires n <= |log| && n <= |orders|
  {
    if n == 0 then Configure(Fresh(config), config)
    else ApplyEntry(Fold(config, log, n - 1, orders), log[n - 1], n - 1, orders[n - 1])
  }

  function LastMembership(log: seq<Entry>, n: nat): Option<nat>
    requires n <= |log|
  {
    if n == 0 then None
    else if log[n - 1].payload.Membership? then Some(n - 1)
    else LastMembership(log, n - 1)
  }

  /** Only the first n orders matter. */
  lemma {:induction false} FoldPrefix(config: seq<NetConfig>, log: seq<Entry>, n: nat, a: seq<Orders>, b: seq<Orders>)
    requires n <= |log| && n <= |a| && n <= |b| && a[..n] == b[..n]
    ensures Fold(config, log, n, a) == Fold(config, log, n, b)
  {
    if n > 0 {
      assert a[..n - 1] == a[..n][..n - 1] == b[..n][..n - 1] == b[..n - 1];
      assert a[n - 1] == a[..n][n - 1] == b[..n][n - 1] == b[n - 1];
      FoldPrefix(config, log, n - 1, a, b);
    }
  }

  // ----- what a command keeps -----

  ghost predicate SameNets(a: seq<Domain>, b: seq<Domain>) {
    && |a| == |b|
    && forall i :: 0 <= i < |a| ==> a[i].name == b[i].name && a[i].registry.networkId == b[i].registry.networkId
  }

  ghost predicate OldEntry(c: Core, i: nat, e: NodeEntry)
    requires i < |c.domains|
  {
    e.nodeId in c.domains[i].registry.entries && c.domains[i].registry.entries[e.nodeId] == e
  }

  ghost predicate AdmittedEntry(c: Core, cmd: Command, anchor: Anchor, i: nat, e: NodeEntry)
    requires i < |c.domains|
  {
    && cmd.Register? && A.Parse(cmd.key).Key? && A.Parse(cmd.key).network == c.domains[i].name
    && e.pubkey == cmd.pubkey && e.anchor == anchor && e.nodeId == c.nextNodeId
    && e.binding == Signed(e.nodeId, e.pubkey, e.anchor)
  }

  /** Which entries a command can leave in a network: old ones, and the one a registration admits there. */
  ghost predicate OldOrAdmitted(c: Core, cmd: Command, anchor: Anchor, i: nat, e: NodeEntry)
    requires i < |c.domains|
  {
    OldEntry(c, i, e) || AdmittedEntry(c, cmd, anchor, i, e)
  }

  lemma AdmittedEntries(c: Core, cmd: Command, anchor: Anchor, j: nat, c': Core, i: nat, n: NodeId)
    requires CoreOk(c) && cmd.Register? && AdmittedAt(c, cmd, anchor, j, c') && i < |c.domains|
    ensures SameNets(c.domains, c'.domains)
    ensures n in c'.domains[i].registry.entries ==> OldOrAdmitted(c, cmd, anchor, i, c'.domains[i].registry.entries[n])
  {
    assert RegistryOk(c.domains[i].registry, c.nextNodeId);
  }

  lemma RegisterEntries(c: Core, cmd: Command, anchor: Anchor, i: nat, n: NodeId)
    requires CoreOk(c) && cmd.Register? && i < |c.domains|
    ensures var ds := RegisterNode(c, cmd, anchor).core.domains;
            SameNets(c.domains, ds) &&
            (n in ds[i].registry.entries ==> OldOrAdmitted(c, cmd, anchor, i, ds[i].registry.entries[n]))
  {
    var j := RegisterShape(c, cmd, anchor);
    var x := RegisterNode(c, cmd, anchor);
    assert RegistryOk(c.domains[i].registry, c.nextNodeId);
    if x.reply.Admitted? { AdmittedEntries(c, cmd, anchor, j, x.core, i, n); }
  }

  /** The networks after a revocation: flushed, and the one that held the node without it. */
  lemma RevokeDomains(c: Core, node: NodeId, now: nat, anchor: Anchor, orders: Orders, i: nat)
    requires CoreOk(c) && i < |c.domains|
    ensures var ds := RevokeNode(c, node, now, anchor, orders).domains;
            && |ds| == |c.domains| && ds[i].name == c.domains[i].name
            && ds[i].registry == if node in c.domains[i].registry.entries
                                 then Registries.Revoke(c.domains[i].registry, node) else c.domains[i].registry
  {
    var ds := FlushAll(c.domains, now);
    SameHolder(c, ds, node);
  }

  lemma SameHolder(c: Core, ds: seq<Domain>, node: NodeId)
    requires CoreOk(c) && |ds| == |c.domains| && forall i :: 0 <= i < |ds| ==> ds[i].registry == c.domains[i].registry
    ensures forall i :: 0 <= i < |ds| ==> (i == FindNode(ds, node) <==> node in c.domains[i].registry.entries)
  {
    forall i | 0 <= i < |ds| && node in c.domains[i].registry.entries ensures i == FindNode(ds, node) {
      HomeOf(c, node);
      assert node in ds[i].registry.entries;
    }
  }

  lemma RevokeEntries(c: Core, node: NodeId, now: nat, anchor: Anchor, orders: Orders)
    requires CoreOk(c)
    ensures var ds := RevokeNode(c, node, now, anchor, orders).domains;
            && SameNets(c.domains, ds)
            && forall i :: 0 <= i < |ds| ==> ds[i].registry.entries == c.domains[i].registry.entries - {node}
  {
    var ds := RevokeNode(c, node, now, anchor, orders).domains;
    assert |ds| == |c.domains|;
    forall i | 0 <= i < |ds|
      ensures ds[i].name == c.domains[i].name && ds[i].registry.networkId == c.domains[i].registry.networkId
      ensures ds[i].registry.entries == c.domains[i].registry.entries - {node}
    {
      assert RegistryOk(c.domains[i].registry, c.nextNodeId);
      RevokeDomains(c, node, now, anchor, orders, i);
      RevokeOk(c.domains[i].registry, node, c.nextNodeId);
    }
  }

  predicate Quiet(cmd: Command) {
    !cmd.Register? && !cmd.Revoke?
  }

  /** Everything but keys and paths. */
  predicate SameButSides(a: Domain, b: Domain) {
    a.registry == b.registry && a.name == b.name && a.aclEnabled == b.aclEnabled && a.exitAllow == b.exitAllow
  }

  ghost predicate AllSameButSides(a: seq<Domain>, b: seq<Domain>) {
    |a| == |b| && forall i :: 0 <= i < |a| ==> SameButSides(a[i], b[i])
  }

  lemma OneSide(ds: seq<Domain>, i: nat, d: Domain)
    requires i < |ds| && SameButSides(ds[i], d)
    ensures AllSameButSides(ds, ds[i := d])
  {}

  lemma QuietEntries(c: Core, cmd: Command, anchor: Anchor, orders: Orders)
    requires Quiet(cmd)
    ensures AllSameButSides(c.domains, ApplyCommand(c, cmd, anchor, orders).domains)
  {
    var ds := c.domains;
    var x := ApplyCommand(c, cmd, anchor, orders);
    match cmd
    case SetEndpoints(_, _, _) =>
    case FlushRevokeRotations(_) =>
    case RequestPaths(source, _, _, _) =>
      if x != c {
        var i := FindId(ds, ds[DomainOf(ds, source)].registry.networkId);
        OneSide(ds, i, x.domains[i]);
      }
    case SetRelayRoster(id, _, _) =>
      if FindId(ds, id) < |ds| { OneSide(ds, FindId(ds, id), x.domains[FindId(ds, id)]); }
    case RotateMasterKey(name) =>
      if FindName(ds, name) < |ds| { OneSide(ds, FindName(ds, name), x.domains[FindName(ds, name)]); }
  }

  lemma RegisterSameNets(c: Core, cmd: Command, anchor: Anchor)
    requires CoreOk(c) && cmd.Register?
    ensures SameNets(c.domains, RegisterNode(c, cmd, anchor).core.domains)
  {
    var i := RegisterShape(c, cmd, anchor);
  }

  lemma CommandSameNets(c: Core, cmd: Command, anchor: Anchor, orders: Orders)
    requires CoreOk(c)
    ensures SameNets(c.domains, ApplyCommand(c, cmd, anchor, orders).domains)
  {
    if cmd.Register? {
      RegisterSameNets(c, cmd, anchor);
    } else if cmd.Revoke? {
      RevokeEntries(c, cmd.node, cmd.now, anchor, orders);
    } else {
      QuietEntries(c, cmd, anchor, orders);
    }
  }

  lemma CommandEntries(c: Core, cmd: Command, anchor: Anchor, orders: Orders, i: nat, n: NodeId)
    requires CoreOk(c) && i < |c.domains|
    ensures var ds := ApplyCommand(c, cmd, anchor, orders).domains;
            SameNets(c.domains, ds) &&
            (n in ds[i].registry.entries ==> OldOrAdmitted(c, cmd, anchor, i, ds[i].registry.entries[n]))
  {
    assert RegistryOk(c.domains[i].registry, c.nextNodeId);
    if cmd.Register? {
      RegisterEntries(c, cmd, anchor, i, n);
    } else if cmd.Revoke? {
      RevokeEntries(c, cmd.node, cmd.now, anchor, orders);
    } else {
      QuietEntries(c, cmd, anchor, orders);
    }
  }

  // ----- commands keep the configuration -----

  lemma SpendConfigured(d: Domain, net: NetConfig, cmd: Command, anchor: Anchor, node: NodeId, r: Registry)
    requires cmd.Register? && ConfiguredNet(d, net) && NewEntry(d.registry, cmd, anchor, node, r)
    ensures ConfiguredNet(d.(registry := r), net)
  {
    LiveKeysSpend(d.registry.consumed, net.keys, cmd.key);
  }

  lemma RegisterMatches(c: Core, config: seq<NetConfig>, cmd: Command, anchor: Anchor)
    requires CoreOk(c) && Configured(c, config) && cmd.Register?
    ensures Configured(RegisterNode(c, cmd, anchor).core, config)
  {
    var i := RegisterShape(c, cmd, anchor);
    var x := RegisterNode(c, cmd, anchor);
    if x.reply.Admitted? { AdmittedConfigured(c, config, cmd, anchor, i, x.core); }
  }

  lemma AdmittedConfigured(c: Core, config: seq<NetConfig>, cmd: Command, anchor: Anchor, i: nat, c': Core)
    requires Configured(c, config) && cmd.Register? && AdmittedAt(c, cmd, anchor, i, c')
    ensures Configured(c', config)
  {
    assert ConfiguredNet(c.domains[i], config[i]);
    SpendConfigured(c.domains[i], config[i], cmd, anchor, c.nextNodeId, c'.domains[i].registry);
    forall j | 0 <= j < |config| ensures ConfiguredNet(c'.domains[j], config[j]) {
      assert ConfiguredNet(c.domains[j], config[j]);
    }
  }

  lemma RevokeMatches(c: Core, config: seq<NetConfig>, node: NodeId, now: nat, anchor: Anchor, orders: Orders)
    requires Configured(c, config)
    ensures Configured(RevokeNode(c, node, now, anchor, orders), config)
  {
    var ds := RevokeNode(c, node, now, anchor, orders).domains;
    forall j | 0 <= j < |config| ensures ConfiguredNet(ds[j], config[j]) {
      assert ConfiguredNet(c.domains[j], config[j]);
    }
  }

  lemma QuietMatches(c: Core, config: seq<NetConfig>, cmd: Command, anchor: Anchor, orders: Orders)
    requires Configured(c, config) && Quiet(cmd)
    ensures Configured(ApplyCommand(c, cmd, anchor, orders), config)
  {
    QuietEntries(c, cmd, anchor, orders);
    var ds := ApplyCommand(c, cmd, anchor, orders).domains;
    forall j | 0 <= j < |config| ensures ConfiguredNet(ds[j], config[j]) {
      assert ConfiguredNet(c.domains[j], config[j]);
    }
  }

  lemma CommandMatches(c: Core, config: seq<NetConfig>, cmd: Command, anchor: Anchor, orders: Orders)
    requires CoreOk(c) && Configured(c, config)
    ensures Configured(ApplyCommand(c, cmd, anchor, orders), config)
  {
    if cmd.Register? {
      RegisterMatches(c, config, cmd, anchor);
    } else if cmd.Revoke? {
      RevokeMatches(c, config, cmd.node, cmd.now, anchor, orders);
    } else {
      QuietMatches(c, config, cmd, anchor, orders);
    }
  }

  // ----- the fold -----

  /** What loading checks of one network: a valid name, whose hash is the id, and keys that name it. */
  ghost predicate NetOk(net: NetConfig) {
    && A.ValidNetwork(net.name) && net.id == NetworkId(net.name)
    && forall i :: 0 <= i < |net.keys| ==> A.Parse(net.keys[i].0).Key? && A.Parse(net.keys[i].0).network == net.name
  }

  /** Configurations are rejected on load unless every network is good and names and ids are unique. */
  ghost predicate ConfigOk(config: seq<NetConfig>) {
    && (forall i :: 0 <= i < |config| ==> NetOk(config[i]))
    && forall i, j :: 0 <= i < j < |config| ==> config[i].name != config[j].name && config[i].id != config[j].id
  }

  lemma StartOk(config: seq<NetConfig>)
    requires ConfigOk(config)
    ensures CoreOk(Configure(Fresh(config), config)) && Configured(Configure(Fresh(config), config), config)
    ensures forall i :: 0 <= i < |config| ==> Configure(Fresh(config), config).domains[i].registry.entries == map[]
  {
    var c := Configure(Fresh(config), config);
    forall i | 0 <= i < |config| ensures ConfiguredNet(c.domains[i], config[i]) && RegistryOk(c.domains[i].registry, 1)
        && c.domains[i].registry.entries == map[] && SpentHome(c.domains[i]) {
      ConfigureGives(Empty(config[i].id), config[i].keys, config[i].whitelist);
    }
  }

  /** An entry comes from the registration at its anchor. */
  ghost predicate IssuedBy(log: seq<Entry>, n: nat, name: string, e: NodeEntry)
    requires n <= |log|
  {
    && e.anchor.index < n && e.anchor.term == log[e.anchor.index].term
    && log[e.anchor.index].payload.Normal? && log[e.anchor.index].payload.cmd.Register?
    && log[e.anchor.index].payload.cmd.pubkey == e.pubkey
    && A.Parse(log[e.anchor.index].payload.cmd.key).Key? && A.Parse(log[e.anchor.index].payload.cmd.key).network == name
    && e.binding == Signed(e.nodeId, e.pubkey, e.anchor)
  }

  ghost predicate AllIssued(log: seq<Entry>, n: nat, c: Core)
    requires n <= |log|
  {
    forall i, m :: 0 <= i < |c.domains| && m in c.domains[i].registry.entries ==>
      IssuedBy(log, n, c.domains[i].name, c.domains[i].registry.entries[m])
  }

  /** What every replica's core is after some of the log. */
  ghost predicate Reached(config: seq<NetConfig>, log: seq<Entry>, n: nat, c: Core) {
    n <= |log| && CoreOk(c) && Configured(c, config) && AllIssued(log, n, c)
  }

  lemma IssuedBefore(log: seq<Entry>, n: nat, c: Core, i: nat, e: NodeEntry)
    requires 0 < n <= |log| && AllIssued(log, n - 1, c) && i < |c.domains| && OldEntry(c, i, e)
    ensures IssuedBy(log, n, c.domains[i].name, e)
  {
    assert IssuedBy(log, n - 1, c.domains[i].name, c.domains[i].registry.entries[e.nodeId]);
  }

  lemma IssuedNow(log: seq<Entry>, n: nat, c: Core, cmd: Command, i: nat, e: NodeEntry)
    requires 0 < n <= |log| && log[n - 1].payload == Normal(cmd) && i < |c.domains|
    requires AdmittedEntry(c, cmd, Anchor(n - 1, log[n - 1].term), i, e)
    ensures IssuedBy(log, n, c.domains[i].name, e)
  {
    assert log[e.anchor.index] == log[n - 1];
  }

  /** An old entry was issued before; the admitted one is issued by this entry of the log. */
  lemma IssuedThen(log: seq<Entry>, n: nat, c: Core, cmd: Command, i: nat, e: NodeEntry)
    requires 0 < n <= |log| && AllIssued(log, n - 1, c) && log[n - 1].payload == Normal(cmd) && i < |c.domains|
    requires OldOrAdmitted(c, cmd, Anchor(n - 1, log[n - 1].term), i, e)
    ensures IssuedBy(log, n, c.domains[i].name, e)
  {
    if OldEntry(c, i, e) { IssuedBefore(log, n, c, i, e); } else { IssuedNow(log, n, c, cmd, i, e); }
  }

  lemma EntryIssued(log: seq<Entry>, n: nat, c: Core, orders: Orders)
    requires 0 < n <= |log| && CoreOk(c) && AllIssued(log, n - 1, c)
    ensures AllIssued(log, n, ApplyEntry(c, log[n - 1], n - 1, orders))
  {
    var c' := ApplyEntry(c, log[n - 1], n - 1, orders);
    if log[n - 1].payload.Normal? {
      forall i, m | 0 <= i < |c'.domains| && m in c'.domains[i].registry.entries
        ensures IssuedBy(log, n, c'.domains[i].name, c'.domains[i].registry.entries[m])
      {
        var cmd, anchor := log[n - 1].payload.cmd, Anchor(n - 1, log[n - 1].term);
        CommandSameNets(c, cmd, anchor, orders);
        CommandEntries(c, cmd, anchor, orders, i, m);
        IssuedThen(log, n, c, cmd, i, c'.domains[i].registry.entries[m]);
      }
    }
  }

  lemma EntryOk(config: seq<NetConfig>, log: seq<Entry>, n: nat, c: Core, orders: Orders)
    requires 0 < n <= |log| && Reached(config, log, n - 1, c)
    ensures Reached(config, log, n, ApplyEntry(c, log[n - 1], n - 1, orders))
  {
    EntryIssued(log, n, c, orders);
    if log[n - 1].payload.Normal? {
      var cmd, anchor := log[n - 1].payload.cmd, Anchor(n - 1, log[n - 1].term);
      ApplyOk(c, cmd, anchor, orders);
      CommandMatches(c, config, cmd, anchor, orders);
    }
  }

  lemma {:induction false} FoldReached(config: seq<NetConfig>, log: seq<Entry>, n: nat, orders: seq<Orders>)
    requires ConfigOk(config) && n <= |log| && n <= |orders|
    ensures Reached(config, log, n, Fold(config, log, n, orders))
  {
    if n == 0 {
      NothingIssued(config, log);
    } else {
      FoldReached(config, log, n - 1, orders);
      EntryOk(config, log, n, Fold(config, log, n - 1, orders), orders[n - 1]);
    }
  }

  lemma FoldOk(config: seq<NetConfig>, log: seq<Entry>, n: nat, orders: seq<Orders>)
    requires ConfigOk(config) && n <= |log| && n <= |orders|
    ensures var c := Fold(config, log, n, orders); CoreOk(c) && Configured(c, config) && AllIssued(log, n, c)
  {
    FoldReached(config, log, n, orders);
  }

  lemma NothingIssued(config: seq<NetConfig>, log: seq<Entry>)
    requires ConfigOk(config)
    ensures Reached(config, log, 0, Configure(Fresh(config), config))
  {
    StartOk(config);
    var c := Configure(Fresh(config), config);
    assert forall i :: 0 <= i < |c.domains| ==> c.domains[i].registry.entries == map[];
  }

  /** No public key is registered with the keys of two networks. */
  ghost predicate OneNetworkPerKey(log: seq<Entry>) {
    forall i, j :: 0 <= i < |log| && 0 <= j < |log| && IsRegister(log[i]) && IsRegister(log[j]) ==>
      log[i].payload.cmd.pubkey != log[j].payload.cmd.pubkey || NetworkOf(log[i]) == NetworkOf(log[j])
  }

  predicate IsRegister(e: Entry) {
    e.payload.Normal? && e.payload.cmd.Register? && A.Parse(e.payload.cmd.key).Key?
  }

  function NetworkOf(e: Entry): string
    requires IsRegister(e)
  {
    A.Parse(e.payload.cmd.key).network
  }

  lemma FoldApart(config: seq<NetConfig>, log: seq<Entry>, n: nat, orders: seq<Orders>)
    requires ConfigOk(config) && OneNetworkPerKey(log) && n <= |log| && n <= |orders|
    ensures PubkeysApart(Fold(config, log, n, orders).domains)
  {
    var c := Fold(config, log, n, orders);
    FoldOk(config, log, n, orders);
    forall i, j, pk | 0 <= i < j < |c.domains| && pk in c.domains[i].registry.pubkeys
        ensures pk !in c.domains[j].registry.pubkeys {
      if pk in c.domains[j].registry.pubkeys { SameName(log, n, c, i, j, pk); }
    }
  }

  lemma SameName(log: seq<Entry>, n: nat, c: Core, i: nat, j: nat, pk: Pubkey)
    requires CoreOk(c) && OneNetworkPerKey(log) && n <= |log| && AllIssued(log, n, c)
    requires i < |c.domains| && j < |c.domains| && pk in c.domains[i].registry.pubkeys
            && pk in c.domains[j].registry.pubkeys
    ensures c.domains[i].name == c.domains[j].name
  {
    var a := Owner(c, i, pk);
    var b := Owner(c, j, pk);
    var e, f := c.domains[i].registry.entries[a], c.domains[j].registry.entries[b];
    assert IssuedBy(log, n, c.domains[i].name, e) && IssuedBy(log, n, c.domains[j].name, f);
    assert IsRegister(log[e.anchor.index]) && IsRegister(log[f.anchor.index]);
  }
}
