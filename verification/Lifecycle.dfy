/** Whole lives of a coordinator and its file: commands, reloads and restarts; ids are never reissued. */
module Lifecycle {
  import opened Bytes
  import opened Prefixes
  import opened Registries
  import opened CoordCore
  import opened Persistence
  import opened Recovery
  import opened CoordinatorModel
  import opened WriteThrough
  import A = AuthKey
  import L = Liveness
  import Machine

  /** A restart is under a configuration of its own, and so is the version of the map it starts with. */
  datatype Event = Do(op: Op) | Restart(config: seq<NetConfig>, version: nat)

  /** The process and the file: the core as the last operation that wrote left it. A refused start keeps the file. */
  datatype World =
    | Up(coordinator: Coordinator, saved: Option<Core>)
    | Halted(error: StoreError, saved: Option<Core>)

  function Begin(config: seq<NetConfig>, version: nat): Coordinator {
    Coordinator(Configure(Fresh(config), config), L.NOBODY, version, map[])
  }

  /** Starting reads the file, if there is one, and writes nothing. */
  function Start(saved: Option<Core>, config: seq<NetConfig>, version: nat): World {
    if saved.None? then Up(Begin(config, version), None)
    else
      var x := Recover(saved.value, config);
      if x.Inconsistent? then Halted(x.error, saved)
      else Up(Coordinator(x.core, L.NOBODY, version, map[]), saved)
  }

  function Act(c: Coordinator, saved: Option<Core>, op: Op): World {
    Up(Step(c, op), if Writes(c.core, op) then Some(Step(c, op).core) else saved)
  }

  function Happen(w: World, e: Event): World {
    if e.Restart? then Start(w.saved, e.config, e.version)
    else if w.Halted? then w
    else Act(w.coordinator, w.saved, e.op)
  }

  function Life(config: seq<NetConfig>, events: seq<Event>): World {
    if events == [] then Start(None, config, 0)
    else Happen(Life(config, events[..|events| - 1]), events[|events| - 1])
  }

  /** An admission: the id given out, the key used, and whether the key was a one-time key then. */
  datatype Admission = Admission(node: NodeId, key: string, oneTime: bool)

  function Policy(c: Core, key: string): Option<KeyPolicy> {
    var parsed := A.Parse(key);
    if parsed.Bad? then None
    else
      var i := FindName(c.domains, parsed.network);
      if i < |c.domains| && key in c.domains[i].registry.authKeys then Some(c.domains[i].registry.authKeys[key])
          else None
  }

  function AdmissionOf(w: World, e: Event): Option<Admission> {
    if w.Halted? || !e.Do? || !e.op.Logged? || !e.op.cmd.Register? then None
    else
      var c := w.coordinator.core;
      var x := RegisterNode(c, e.op.cmd, e.op.anchor);
      if x.reply.Admitted? then Some(Admission(x.reply.node, e.op.cmd.key, Policy(c, e.op.cmd.key) == Some(OneTime)))
          else None
  }

  function Admissions(config: seq<NetConfig>, events: seq<Event>): seq<Admission> {
    if events == [] then []
    else
      var front := events[..|events| - 1];
      var a := AdmissionOf(Life(config, front), events[|events| - 1]);
      Admissions(config, front) + if a.Some? then [a.value] else []
  }

  ghost predicate ConfigsOk(events: seq<Event>) {
    forall i :: 0 <= i < |events| && events[i].Restart? ==> Machine.ConfigOk(events[i].config)
  }

  // ----- a step keeps the core good, ids growing and spent keys spent -----

  lemma NamedOk(c: Coordinator, name: string, d: Domain)
    requires CoreOk(c.core) && Named(c, name).Some?
    requires d.name == name && d.registry.networkId == Named(c, name).value.registry.networkId
    requires d.registry.entries == Named(c, name).value.registry.entries
            && d.registry.pubkeys == Named(c, name).value.registry.pubkeys
    requires d.registry.consumed == Named(c, name).value.registry.consumed && SpentGone(d.registry)
    ensures CoreOk(UpdateDomain(c, name, d).core) && AllConsumed(UpdateDomain(c, name, d).core.domains)
            == AllConsumed(c.core.domains)
  {
    var i := FindName(c.core.domains, name);
    var r := c.core.domains[i].registry;
    assert RegistryOk(r, c.core.nextNodeId) && SpentHome(c.core.domains[i]);
    ReplaceOk(c.core, i, d, c.core.nextNodeId);
    SameConsumed(c.core.domains, UpdateDomain(c, name, d).core.domains);
  }

  lemma SameConsumed(a: seq<Domain>, b: seq<Domain>)
    requires |a| == |b| && forall i :: 0 <= i < |a| ==> a[i].registry.consumed == b[i].registry.consumed
    ensures AllConsumed(a) == AllConsumed(b)
  {
    forall k | k in AllConsumed(a) ensures k in AllConsumed(b) {
      var i :| 0 <= i < |a| && k in a[i].registry.consumed;
      assert k in b[i].registry.consumed;
    }
    forall k | k in AllConsumed(b) ensures k in AllConsumed(a) {
      var i :| 0 <= i < |b| && k in b[i].registry.consumed;
      assert k in a[i].registry.consumed;
    }
  }

  ghost predicate Onward(a: Core, b: Core) {
    && CoreOk(b) && a.nextNodeId <= b.nextNodeId && AllConsumed(a.domains) <= AllConsumed(b.domains)
    && Machine.SameNets(a.domains, b.domains)
  }

  lemma NamedOnward(c: Coordinator, name: string, d: Domain)
    requires CoreOk(c.core) && Named(c, name).Some?
    requires d.name == name && d.registry.networkId == Named(c, name).value.registry.networkId
    requires d.registry.entries == Named(c, name).value.registry.entries
            && d.registry.pubkeys == Named(c, name).value.registry.pubkeys
    requires d.registry.consumed == Named(c, name).value.registry.consumed && SpentGone(d.registry)
    ensures Onward(c.core, UpdateDomain(c, name, d).core)
  {
    NamedOk(c, name, d);
    NamedNets(c, name, d);
  }

  lemma NamedNets(c: Coordinator, name: string, d: Domain)
    requires Named(c, name).Some? && d.name == name
    requires d.registry.networkId == Named(c, name).value.registry.networkId
    ensures Machine.SameNets(c.core.domains, UpdateDomain(c, name, d).core.domains)
    ensures UpdateDomain(c, name, d).core.nextNodeId == c.core.nextNodeId
  {}

  lemma KeyRegistryOk(r: Registry, key: string, add: Option<KeyPolicy>)
    requires SpentGone(r)
    ensures var x := if add.Some? then AddAuthKey(r, key, add.value) else RemoveAuthKey(r, key);
            SpentGone(x) && x.(authKeys := r.authKeys) == r
  {}

  lemma KeyOnward(c: Coordinator, key: string, add: Option<KeyPolicy>)
    requires CoreOk(c.core)
    ensures Onward(c.core, ChangeKey(c, key, add).core)
  {
    var parsed := A.Parse(key);
    if parsed.Key? && Named(c, parsed.network).Some? {
      var d := Named(c, parsed.network).value;
      assert RegistryOk(d.registry, c.core.nextNodeId);
      KeyRegistryOk(d.registry, key, add);
      var r := if add.Some? then AddAuthKey(d.registry, key, add.value) else RemoveAuthKey(d.registry, key);
      NamedOnward(c, parsed.network, d.(registry := r));
    }
  }

  lemma ConfigOnward(c: Coordinator, name: string, d: Domain)
    requires CoreOk(c.core) && Named(c, name).Some?
    requires d.name == name && d.registry.(whitelist := []) == Named(c, name).value.registry.(whitelist := [])
    ensures Onward(c.core, UpdateDomain(c, name, d).core)
  {
    assert RegistryOk(Named(c, name).value.registry, c.core.nextNodeId);
    NamedOnward(c, name, d);
  }

  lemma FlushOnward(c: Core, now: nat)
    requires CoreOk(c)
    ensures Onward(c, c.(domains := FlushAll(c.domains, now)))
  {
    FlushOk(c, now);
    SameConsumed(c.domains, FlushAll(c.domains, now));
  }

  lemma RegisterOnward(c: Core, cmd: Command, anchor: Anchor)
    requires CoreOk(c) && cmd.Register?
    ensures Onward(c, RegisterNode(c, cmd, anchor).core)
  {
    var i := RegisterShape(c, cmd, anchor);
    var x := RegisterNode(c, cmd, anchor);
    RegisterCoreOk(c, cmd, anchor);
    Machine.RegisterSameNets(c, cmd, anchor);
    if x.reply.Admitted? { AdmittedConsumed(c, cmd, anchor, i, x.core); }
  }

  lemma AdmittedConsumed(c: Core, cmd: Command, anchor: Anchor, i: nat, c': Core)
    requires cmd.Register? && AdmittedAt(c, cmd, anchor, i, c')
    ensures AllConsumed(c.domains) <= AllConsumed(c'.domains)
  {
    forall k | k in AllConsumed(c.domains) ensures k in AllConsumed(c'.domains) {
      var j :| 0 <= j < |c.domains| && k in c.domains[j].registry.consumed;
      assert k in c'.domains[j].registry.consumed;
    }
  }

  lemma RevokeOnward(c: Core, node: NodeId, now: nat, anchor: Anchor, orders: Orders)
    requires CoreOk(c)
    ensures Onward(c, RevokeNode(c, node, now, anchor, orders))
  {
    RevokeCoreOk(c, node, now, anchor, orders);
    Machine.RevokeEntries(c, node, now, anchor, orders);
    RevokeConsumed(c, node, now, anchor, orders);
  }

  lemma RevokeConsumed(c: Core, node: NodeId, now: nat, anchor: Anchor, orders: Orders)
    ensures AllConsumed(RevokeNode(c, node, now, anchor, orders).domains) == AllConsumed(c.domains)
    ensures RevokeNode(c, node, now, anchor, orders).nextNodeId == c.nextNodeId
  {
    var ds, x := FlushAll(c.domains, now), RevokeNode(c, node, now, anchor, orders);
    var j := FindNode(ds, node);
    if j < |ds| { assert x.domains == ds[j := DropNode(ds[j], node, now, orders.pass)]; }
    SameConsumed(c.domains, x.domains);
  }

  lemma QuietOnward(c: Core, cmd: Command, anchor: Anchor, orders: Orders)
    requires CoreOk(c) && Machine.Quiet(cmd)
    ensures Onward(c, ApplyCommand(c, cmd, anchor, orders))
  {
    ApplyOk(c, cmd, anchor, orders);
    Machine.QuietEntries(c, cmd, anchor, orders);
    SidesOnward(c, ApplyCommand(c, cmd, anchor, orders));
  }

  lemma SidesOnward(c: Core, x: Core)
    requires CoreOk(x) && Machine.AllSameButSides(c.domains, x.domains) && c.nextNodeId <= x.nextNodeId
    ensures Onward(c, x)
  {
    forall i | 0 <= i < |c.domains| ensures c.domains[i].registry.consumed == x.domains[i].registry.consumed {
      assert Machine.SameButSides(c.domains[i], x.domains[i]);
    }
    SameConsumed(c.domains, x.domains);
  }

  lemma CommandOnward(c: Core, cmd: Command, anchor: Anchor, orders: Orders)
    requires CoreOk(c)
    ensures Onward(c, ApplyCommand(c, cmd, anchor, orders))
  {
    if cmd.Register? {
      RegisterOnward(c, cmd, anchor);
    } else if cmd.Revoke? {
      RevokeOnward(c, cmd.node, cmd.now, anchor, orders);
    } else {
      QuietOnward(c, cmd, anchor, orders);
    }
  }

  lemma SettingOnward(c: Coordinator, op: Op)
    requires CoreOk(c.core) && (op.SetWhitelist? || op.SetAcl? || op.SetExitAllow?)
    ensures Onward(c.core, Step(c, op).core)
  {
    if Named(c, op.name).Some? {
      var d := Named(c, op.name).value;
      if op.SetWhitelist? {
        ConfigOnward(c, op.name, d.(registry := d.registry.(whitelist := op.whitelist)));
      } else if op.SetAcl? {
        ConfigOnward(c, op.name, d.(aclEnabled := op.enabled));
      } else {
        ConfigOnward(c, op.name, d.(exitAllow := op.allow));
      }
    } else {
      assert Step(c, op) == c;
    }
  }

  lemma StepOnward(c: Coordinator, op: Op)
    requires CoreOk(c.core)
    ensures Onward(c.core, Step(c, op).core)
  {
    if op.Logged? {
      CommandOnward(c.core, op.cmd, op.anchor, op.orders);
    } else if op.Heartbeat? {
      FlushOnward(c.core, op.now);
    } else if op.AddKey? {
      KeyOnward(c, op.key, Some(op.policy));
    } else if op.RemoveKey? {
      KeyOnward(c, op.key, None);
    } else if op.SetWhitelist? || op.SetAcl? || op.SetExitAllow? {
      SettingOnward(c, op);
    }
  }

  // ----- a restart, possibly under another configuration -----

  lemma RestoredRegistry(c: Core, id: u32, name: string)
    requires CoreOk(c) && Distinct(NodesBelow(c.domains, c.nextNodeId))
    ensures var r := Restore(Empty(id), Filter(NodesBelow(c.domains, c.nextNodeId), id),
            HomeKeys(AllConsumed(c.domains), name));
            && RegistryOk(r, c.nextNodeId) && r.networkId == id && r.consumed == HomeKeys(AllConsumed(c.domains), name)
            && forall n :: n in r.entries ==> Belongs(c.domains, r.entries[n])
  {
    var nodes, spent := NodesBelow(c.domains, c.nextNodeId), HomeKeys(AllConsumed(c.domains), name);
    FilterDistinct(nodes, id);
    FilterMembers(nodes, id);
    RestoredEntries(id, Filter(nodes, id), spent);
    RestoredFromOld(c, Filter(nodes, id), Restore(Empty(id), Filter(nodes, id), spent));
  }

  /** A network after a restart: good, its spent keys those that name it, its entries among the saved ones. */
  ghost predicate Rebooted(c: Core, net: NetConfig, d: Domain) {
    && d.name == net.name && d.registry.networkId == net.id
    && RegistryOk(d.registry, c.nextNodeId)
    && d.registry.consumed == HomeKeys(AllConsumed(c.domains), net.name)
    && (forall n :: n in d.registry.entries ==> Belongs(c.domains, d.registry.entries[n]))
  }

  lemma ConfiguredRebooted(c: Core, net: NetConfig, r: Registry, d: Domain)
    requires RegistryOk(r, c.nextNodeId) && r.networkId == net.id
            && r.consumed == HomeKeys(AllConsumed(c.domains), net.name)
    requires forall n :: n in r.entries ==> Belongs(c.domains, r.entries[n])
    requires d.name == net.name && d.registry == r
    ensures Rebooted(c, net, ConfigureDomain(d, net))
  {
    ConfigureGives(r, net.keys, net.whitelist);
  }

  lemma RestoredAt(c: Core, config: seq<NetConfig>, i: nat)
    requires i < |config| && Recover(c, config).Restored?
    ensures config[i].id in Snapshot(c).keyVersions && Distinct(NodesBelow(c.domains, c.nextNodeId))
    ensures Recover(c, config).core.domains[i]
            == ConfigureDomain(RestoreDomain(FreshDomain(config[i]), Snapshot(c)), config[i])
  {
    CheckExact(FreshDomains(config), Snapshot(c).nodes);
    assert FreshDomains(config)[i].registry.networkId in Snapshot(c).keyVersions;
  }

  lemma RestoredRebooted(c: Core, net: NetConfig)
    requires CoreOk(c) && net.id in Snapshot(c).keyVersions && Distinct(NodesBelow(c.domains, c.nextNodeId))
    ensures Rebooted(c, net, ConfigureDomain(RestoreDomain(FreshDomain(net), Snapshot(c)), net))
  {
    RestoredRegistry(c, net.id, net.name);
    var d := RestoreDomain(FreshDomain(net), Snapshot(c));
    ConfiguredRebooted(c, net, d.registry, d);
  }

  lemma RebootDomain(c: Core, config: seq<NetConfig>, i: nat)
    requires CoreOk(c) && i < |config| && Recover(c, config).Restored?
    ensures Rebooted(c, config[i], Recover(c, config).core.domains[i])
  {
    RestoredAt(c, config, i);
    RestoredRebooted(c, config[i]);
  }

  lemma RestoredEntries(id: u32, mine: seq<NodeEntry>, consumed: set<string>)
    requires Distinct(mine)
    ensures var r := Restore(Empty(id), mine, consumed);
            && IndexOk(r) && r.networkId == id && r.authKeys == map[] && r.consumed == consumed
            && forall n :: n in r.entries ==> r.entries[n] in mine && r.entries[n].nodeId == n
  {
    var blank := Empty(id);
    assert blank.(entries := map[], pubkeys := map[]) == blank;
    InsertAllKeeps(blank, mine);
    InsertAllFrame(blank, mine);
    InsertAllIds(blank, mine);
  }

  lemma RestoredFromOld(c: Core, mine: seq<NodeEntry>, r: Registry)
    requires CoreOk(c) && forall e :: e in mine ==>
            e in NodesBelow(c.domains, c.nextNodeId) && e.networkId == r.networkId
    requires forall n :: n in r.entries ==> r.entries[n] in mine && r.entries[n].nodeId == n
    ensures EntriesOk(r, c.nextNodeId) && forall n :: n in r.entries ==> Belongs(c.domains, r.entries[n])
  {
    var nodes := NodesBelow(c.domains, c.nextNodeId);
    NodesSound(c, c.nextNodeId);
    forall n | n in r.entries ensures 0 < n < c.nextNodeId && Belongs(c.domains, r.entries[n]) {
      var k :| 0 <= k < |nodes| && nodes[k] == r.entries[n];
      var i := Home(c, nodes[k]);
      assert RegistryOk(c.domains[i].registry, c.nextNodeId);
    }
  }

  ghost predicate AllRebooted(c: Core, config: seq<NetConfig>, x: Core) {
    && |x.domains| == |config| && x.nextNodeId == c.nextNodeId && x.revoked == c.revoked
    && forall i :: 0 <= i < |config| ==> Rebooted(c, config[i], x.domains[i])
  }

  lemma RebootAll(c: Core, config: seq<NetConfig>)
    requires CoreOk(c) && Recover(c, config).Restored?
    ensures AllRebooted(c, config, Recover(c, config).core)
  {
    forall i | 0 <= i < |config| ensures Rebooted(c, config[i], Recover(c, config).core.domains[i]) {
      RebootDomain(c, config, i);
    }
  }

  lemma RebootedCoreOk(c: Core, config: seq<NetConfig>, x: Core)
    requires CoreOk(c) && Machine.ConfigOk(config) && AllRebooted(c, config, x)
    ensures CoreOk(x)
  {
    forall i | 0 <= i < |config| ensures RegistryOk(x.domains[i].registry, c.nextNodeId) && SpentHome(x.domains[i])
        && x.domains[i].name == config[i].name && x.domains[i].registry.networkId == config[i].id {
      assert Rebooted(c, config[i], x.domains[i]);
    }
    forall i, j, n | 0 <= i < j < |x.domains| && n in x.domains[i].registry.entries
        ensures n !in x.domains[j].registry.entries {
      RebootApart(c, config, x, i, j, n);
    }
    forall n, i | n in x.revoked && 0 <= i < |x.domains| ensures n !in x.domains[i].registry.entries {
      RebootTombstone(c, config, x, i, n);
    }
  }

  lemma RebootOk(c: Core, config: seq<NetConfig>)
    requires CoreOk(c) && Machine.ConfigOk(config) && Recover(c, config).Restored?
    ensures var x := Recover(c, config).core;
            CoreOk(x) && x.nextNodeId == c.nextNodeId
  {
    RebootAll(c, config);
    RebootedCoreOk(c, config, Recover(c, config).core);
  }

  /** The entry of a node names one network. */
  lemma RebootApart(c: Core, config: seq<NetConfig>, x: Core, i: nat, j: nat, n: NodeId)
    requires CoreOk(c) && Machine.ConfigOk(config) && AllRebooted(c, config, x) && i < j < |x.domains|
    ensures !(n in x.domains[i].registry.entries && n in x.domains[j].registry.entries)
  {
    assert Rebooted(c, config[i], x.domains[i]) && Rebooted(c, config[j], x.domains[j]);
    if n in x.domains[i].registry.entries && n in x.domains[j].registry.entries {
      var a := Home(c, x.domains[i].registry.entries[n]);
      var b := Home(c, x.domains[j].registry.entries[n]);
      HomeOf(c, n);
    }
  }

  lemma RebootTombstone(c: Core, config: seq<NetConfig>, x: Core, i: nat, n: NodeId)
    requires CoreOk(c) && AllRebooted(c, config, x) && i < |x.domains| && n in c.revoked
    ensures n !in x.domains[i].registry.entries
  {
    assert Rebooted(c, config[i], x.domains[i]);
    if n in x.domains[i].registry.entries { var a := Home(c, x.domains[i].registry.entries[n]); }
  }

  ghost predicate HasNetwork(config: seq<NetConfig>, name: string) {
    exists i :: 0 <= i < |config| && config[i].name == name
  }

  /** A restart keeps a key spent exactly when its configuration still has the network the key names. */
  lemma SpentSurvives(c: Core, config: seq<NetConfig>, k: string)
    requires CoreOk(c) && Machine.ConfigOk(config) && Recover(c, config).Restored?
    requires k in AllConsumed(c.domains)
    ensures A.Parse(k).Key?
    ensures k in AllConsumed(Recover(c, config).core.domains)
            <==> HasNetwork(config, A.Parse(k).network)
  {
    var x := Recover(c, config).core;
    var j :| 0 <= j < |c.domains| && k in c.domains[j].registry.consumed;
    assert SpentHome(c.domains[j]);
    RebootAll(c, config);
    forall i | 0 <= i < |config| ensures k in x.domains[i].registry.consumed <==> config[i].name == A.Parse(k).network {
      assert Rebooted(c, config[i], x.domains[i]);
    }
  }

  // ----- whole lives -----

  /** The next id to give out, as the file has it. */
  function Next(saved: Option<Core>): NodeId {
    if saved.Some? then saved.value.nextNodeId else 1
  }

  /** Memory and file are good cores, and the ids given out are on file. */
  ghost predicate WorldOk(w: World) {
    && (w.saved.Some? ==> CoreOk(w.saved.value))
    && (w.Up? ==> CoreOk(w.coordinator.core) && w.coordinator.core.nextNodeId == Next(w.saved))
  }

  lemma StartWorldOk(saved: Option<Core>, config: seq<NetConfig>, version: nat)
    requires (saved.Some? ==> CoreOk(saved.value)) && Machine.ConfigOk(config)
    ensures WorldOk(Start(saved, config, version))
  {
    if saved.None? {
      Machine.StartOk(config);
    } else if Recover(saved.value, config).Restored? {
      RebootOk(saved.value, config);
    }
  }

  lemma ActOk(c: Coordinator, saved: Option<Core>, op: Op)
    requires WorldOk(Up(c, saved))
    ensures WorldOk(Act(c, saved, op)) && Next(saved) <= Next(Act(c, saved, op).saved)
  {
    StepOnward(c, op);
    if !Writes(c.core, op) { Unwritten(c, op, Step(c, op).core); }
  }

  lemma HappenOk(w: World, e: Event)
    requires WorldOk(w) && (e.Restart? ==> Machine.ConfigOk(e.config))
    ensures WorldOk(Happen(w, e)) && Next(w.saved) <= Next(Happen(w, e).saved)
  {
    if e.Restart? {
      StartWorldOk(w.saved, e.config, e.version);
    } else if w.Up? {
      ActOk(w.coordinator, w.saved, e.op);
    }
  }

  lemma {:induction false} LifeOk(config: seq<NetConfig>, events: seq<Event>)
    requires Machine.ConfigOk(config) && ConfigsOk(events)
    ensures WorldOk(Life(config, events))
  {
    if events == [] {
      StartWorldOk(None, config, 0);
    } else {
      LifeOk(config, events[..|events| - 1]);
      HappenOk(Life(config, events[..|events| - 1]), events[|events| - 1]);
    }
  }

  /** An admission takes the next id and, with a one-time key, spends it; a spent key never admits. */
  lemma AdmissionMeans(c: Core, cmd: Command, anchor: Anchor)
    requires CoreOk(c) && cmd.Register? && RegisterNode(c, cmd, anchor).reply.Admitted?
    ensures var x := RegisterNode(c, cmd, anchor);
            && x.reply.node == c.nextNodeId && x.core.nextNodeId == c.nextNodeId + 1
            && cmd.key !in AllConsumed(c.domains) && !Absent(c.domains, cmd.key)
            && (Policy(c, cmd.key) == Some(OneTime) ==> cmd.key in AllConsumed(x.core.domains))
  {
    var i := RegisterShape(c, cmd, anchor);
    var x := RegisterNode(c, cmd, anchor);
    var r := c.domains[i].registry;
    assert RegistryOk(r, c.nextNodeId);
    assert FindName(c.domains, A.Parse(cmd.key).network) == i;
    if cmd.key in AllConsumed(c.domains) { SpentAtHome(c, cmd.key, i); }
    if Policy(c, cmd.key) == Some(OneTime) { assert cmd.key in x.core.domains[i].registry.consumed; }
  }

  /** No network here bears the name that the key carries. */
  ghost predicate Absent(ds: seq<Domain>, key: string) {
    A.Parse(key).Key? ==> forall i :: 0 <= i < |ds| ==> ds[i].name != A.Parse(key).network
  }

  lemma SpentAtHome(c: Core, key: string, i: nat)
    requires CoreOk(c) && key in AllConsumed(c.domains) && i < |c.domains|
    requires A.Parse(key).Key? && A.Parse(key).network == c.domains[i].name
    ensures key in c.domains[i].registry.consumed
  {
    var j :| 0 <= j < |c.domains| && key in c.domains[j].registry.consumed;
    assert SpentHome(c.domains[j]);
  }

  ghost predicate IdsFresh(given: seq<Admission>) {
    forall i, j :: 0 <= i < j < |given| ==> given[i].node != given[j].node
  }

  /** The ids given out so far are below the allocator on file. */
  ghost predicate GivenBelow(given: seq<Admission>, next: NodeId) {
    forall i :: 0 <= i < |given| ==> given[i].node < next
  }

  lemma GivenMore(given: seq<Admission>, next: NodeId, a: Admission)
    requires IdsFresh(given) && GivenBelow(given, next) && a.node == next
    ensures IdsFresh(given + [a]) && GivenBelow(given + [a], next + 1)
  {}

  /** Over every life, restarts under any configurations included, no node id is given out twice. */
  lemma {:induction false} IdsNeverReissued(config: seq<NetConfig>, events: seq<Event>)
    requires Machine.ConfigOk(config) && ConfigsOk(events)
    ensures IdsFresh(Admissions(config, events))
    ensures GivenBelow(Admissions(config, events), Next(Life(config, events).saved))
  {
    if events != [] {
      var front, e := events[..|events| - 1], events[|events| - 1];
      IdsNeverReissued(config, front);
      LifeOk(config, front);
      NextGiven(Admissions(config, front), Life(config, front), e);
    }
  }

  lemma NextGiven(given: seq<Admission>, w: World, e: Event)
    requires WorldOk(w) && (e.Restart? ==> Machine.ConfigOk(e.config))
    requires IdsFresh(given) && GivenBelow(given, Next(w.saved))
    ensures var a := AdmissionOf(w, e);
            var more := given + if a.Some? then [a.value] else [];
            IdsFresh(more) && GivenBelow(more, Next(Happen(w, e).saved))
  {
    HappenOk(w, e);
    var a := AdmissionOf(w, e);
    if a.Some? {
      AdmissionMeans(w.coordinator.core, e.op.cmd, e.op.anchor);
      GivenMore(given, Next(w.saved), a.value);
    } else {
      assert given + [] == given;
    }
  }

  // ----- nothing is lost while the networks stay -----

  /** The file tells what memory holds; without a file there is nothing to tell. */
  ghost predicate FileTells(w: World, config: seq<NetConfig>) {
    w.Up? ==> Snapshot(w.coordinator.core) == Snapshot(if w.saved.Some? then w.saved.value else Begin(config, 0).core)
  }

  ghost predicate KeepsNets(config: seq<NetConfig>, events: seq<Event>) {
    forall i :: 0 <= i < |events| && events[i].Restart? ==> SameConfigNets(config, events[i].config)
  }

  ghost predicate SameConfigNets(a: seq<NetConfig>, b: seq<NetConfig>) {
    |a| == |b| && forall i :: 0 <= i < |a| ==> a[i].name == b[i].name && a[i].id == b[i].id
  }

  ghost predicate WorldNets(w: World, config: seq<NetConfig>) {
    && (w.saved.Some? ==> NamesNets(w.saved.value.domains, config))
    && (w.Up? ==> NamesNets(w.coordinator.core.domains, config))
  }

  lemma BeginAlike(a: seq<NetConfig>, b: seq<NetConfig>)
    requires Machine.ConfigOk(a) && Machine.ConfigOk(b) && SameConfigNets(a, b)
    ensures Snapshot(Begin(a, 0).core) == Snapshot(Begin(b, 0).core)
  {
    var x, y := Begin(a, 0).core, Begin(b, 0).core;
    forall i | 0 <= i < |a| ensures SavedAlike(x.domains[i], y.domains[i]) {
      ConfigureGives(Empty(a[i].id), a[i].keys, a[i].whitelist);
      ConfigureGives(Empty(b[i].id), b[i].keys, b[i].whitelist);
    }
    AlikeSnapshot(x, y);
  }

  lemma BeginNets(config: seq<NetConfig>, next: seq<NetConfig>, c: Core)
    requires Machine.ConfigOk(next) && SameConfigNets(config, next) && c == Begin(next, 0).core
    ensures NamesNets(c.domains, config)
  {
    Machine.StartOk(next);
    assert forall i :: 0 <= i < |next| ==> ConfiguredNet(c.domains[i], next[i]);
  }

  lemma RestartTells(saved: Core, config: seq<NetConfig>, next: seq<NetConfig>, x: Core)
    requires CoreOk(saved) && NamesNets(saved.domains, config) && SameConfigNets(config, next)
    requires Recover(saved, next) == Restored(x)
    ensures Snapshot(x) == Snapshot(saved) && NamesNets(x.domains, config)
  {
    RestartGives(saved, next);
    ConfigureTells(saved, config, next, x);
  }

  lemma ConfigureNames(ds: seq<Domain>, config: seq<NetConfig>, next: seq<NetConfig>)
    requires NamesNets(ds, config) && |ds| == |next|
    ensures NamesNets(ConfigureDomains(ds, next), config)
  {
    forall i | 0 <= i < |ds| ensures ConfigureDomain(ds[i], next[i]).name == ds[i].name
        && ConfigureDomain(ds[i], next[i]).registry.networkId == ds[i].registry.networkId {
      AddKeysGives(ds[i].registry, next[i].keys);
    }
  }

  lemma ConfigureTells(saved: Core, config: seq<NetConfig>, next: seq<NetConfig>, x: Core)
    requires CoreOk(saved) && NamesNets(saved.domains, config) && NamesNets(saved.domains, next)
    requires x == Configure(saved, next)
    ensures Snapshot(x) == Snapshot(saved) && NamesNets(x.domains, config)
  {
    ConfigureNames(saved.domains, config, next);
    ConfigureKeeps(saved, next, x);
    AlikeSnapshot(saved, x);
  }

  lemma StartTells(saved: Option<Core>, config: seq<NetConfig>, next: seq<NetConfig>, version: nat)
    requires Machine.ConfigOk(config) && Machine.ConfigOk(next) && SameConfigNets(config, next)
    requires saved.Some? ==> CoreOk(saved.value) && NamesNets(saved.value.domains, config)
    ensures var w := Start(saved, next, version);
            FileTells(w, config) && WorldNets(w, config)
  {
    if saved.None? {
      BeginAlike(config, next);
      BeginNets(config, next, Begin(next, version).core);
    } else if Recover(saved.value, next).Restored? {
      RestartTells(saved.value, config, next, Recover(saved.value, next).core);
    }
  }

  lemma ActNets(c: Coordinator, saved: Option<Core>, op: Op, config: seq<NetConfig>)
    requires WorldOk(Up(c, saved)) && WorldNets(Up(c, saved), config)
    ensures WorldNets(Act(c, saved, op), config)
  {
    StepOnward(c, op);
  }

  lemma ActTells(c: Coordinator, saved: Option<Core>, op: Op, config: seq<NetConfig>, x: Coordinator)
    requires FileTells(Up(c, saved), config) && x == Step(c, op)
    ensures FileTells(Act(c, saved, op), config)
  {
    if !Writes(c.core, op) { Unwritten(c, op, x.core); }
  }

  /** In every life that keeps its networks, whatever the settings, the file tells all that memory holds. */
  lemma {:induction false} FileCurrent(config: seq<NetConfig>, events: seq<Event>)
    requires Machine.ConfigOk(config) && ConfigsOk(events) && KeepsNets(config, events)
    ensures FileTells(Life(config, events), config) && WorldNets(Life(config, events), config)
  {
    if events == [] {
      StartTells(None, config, config, 0);
    } else {
      var front, e := events[..|events| - 1], events[|events| - 1];
      FileCurrent(config, front);
      LifeOk(config, front);
      var w := Life(config, front);
      if e.Restart? {
        StartTells(w.saved, config, e.config, e.version);
      } else if w.Up? {
        ActNets(w.coordinator, w.saved, e.op, config);
        ActTells(w.coordinator, w.saved, e.op, config, Step(w.coordinator, e.op));
      }
    }
  }

  /** A restart from a file of the state at the beginning would be a new beginning. */
  lemma BeginRestarts(config: seq<NetConfig>, next: seq<NetConfig>)
    requires Machine.ConfigOk(config) && Machine.ConfigOk(next) && SameConfigNets(config, next)
    ensures Recover(Begin(config, 0).core, next) == Restored(Begin(next, 0).core)
  {
    BeginAlike(config, next);
    Machine.StartOk(next);
    var c := Begin(next, 0).core;
    forall i | 0 <= i < |next| ensures c.domains[i].registry.pubkeys == map[] {
      ConfigureGives(Empty(next[i].id), next[i].keys, next[i].whitelist);
    }
    RestoreSnapshot(c, next);
  }

  lemma SnapshotDecides(c: Core, x: Core, config: seq<NetConfig>)
    requires Snapshot(c) == Snapshot(x)
    ensures Recover(c, config) == Recover(x, config)
  {}

  /** Starting from the file is restoring what memory held. */
  lemma StartRecovers(w: World, config: seq<NetConfig>, next: seq<NetConfig>, version: nat, x: Restored)
    requires w.Up? && FileTells(w, config) && x == Recover(w.coordinator.core, next)
    requires Machine.ConfigOk(config) && Machine.ConfigOk(next) && SameConfigNets(config, next)
    ensures Start(w.saved, next, version) == if x.Inconsistent? then Halted(x.error, w.saved)
                                              else Up(Coordinator(x.core, L.NOBODY, version, map[]), w.saved)
  {
    SnapshotDecides(w.coordinator.core, if w.saved.Some? then w.saved.value else Begin(config, 0).core, next);
    if w.saved.None? { BeginRestarts(config, next); }
  }

  /**
   * A crash at any point of such a life loses nothing but leases: the next start comes up exactly when no public key
   * lives in two networks, with the core it had, under the new settings.
   */
  lemma CrashLosesNothing(config: seq<NetConfig>, events: seq<Event>, next: seq<NetConfig>, version: nat)
    requires Machine.ConfigOk(config) && ConfigsOk(events) && KeepsNets(config, events) && Life(config, events).Up?
    requires Machine.ConfigOk(next) && SameConfigNets(config, next)
    ensures var c, w := Life(config, events).coordinator.core, Happen(Life(config, events), Restart(next, version));
            && |c.domains| == |next| && (w.Up? <==> PubkeysApart(c.domains))
            && (w.Up? ==> w.coordinator == Coordinator(Configure(c, next), L.NOBODY, version, map[]))
  {
    LifeOk(config, events);
    FileCurrent(config, events);
    var w := Life(config, events);
    var c := w.coordinator.core;
    assert NamesNets(c.domains, next);
    StartRecovers(w, config, next, version, Recover(c, next));
    RestartGives(c, next);
  }
}
