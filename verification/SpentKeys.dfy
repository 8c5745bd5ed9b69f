/** One-time keys over whole lives: they admit once exactly as long as no two configured names hash to one id. */
module SpentKeys {
  import opened Bytes
  import opened Prefixes
  import opened NetworkIds
  import opened Registries
  import opened CoordCore
  import opened Persistence
  import opened Recovery
  import opened CoordinatorModel
  import opened WriteThrough
  import opened Lifecycle
  import A = AuthKey
  import Machine

  // ----- the names a life was configured with -----

  function Names(config: seq<NetConfig>): set<string> {
    set i | 0 <= i < |config| :: config[i].name
  }

  function AllNames(config: seq<NetConfig>, events: seq<Event>): set<string> {
    if events == [] then Names(config)
    else
      var last := events[|events| - 1];
      AllNames(config, events[..|events| - 1]) + if last.Restart? then Names(last.config) else {}
  }

  ghost predicate IdsApart(names: set<string>) {
    forall a, b :: a in names && b in names && NetworkId(a) == NetworkId(b) ==> a == b
  }

  /** The networks bear names of the set, and their ids are the hashes. */
  ghost predicate Hashed(ds: seq<Domain>, names: set<string>) {
    forall i :: 0 <= i < |ds| ==> ds[i].name in names && ds[i].registry.networkId == NetworkId(ds[i].name)
  }

  // ----- admissions under one key -----

  /** The key admitted a node as a one-time key. */
  ghost predicate Admitted(given: seq<Admission>, key: string) {
    exists i :: 0 <= i < |given| && given[i].oneTime && given[i].key == key
  }

  /** Once it did, no later admission is under the same key. */
  ghost predicate AdmitsOnce(given: seq<Admission>, key: string) {
    forall i, j :: 0 <= i < j < |given| && given[i].oneTime && given[i].key == key ==> given[j].key != key
  }

  lemma AdmitsOnceMore(given: seq<Admission>, a: Admission, key: string)
    requires AdmitsOnce(given, key) && (Admitted(given, key) ==> a.key != key)
    ensures AdmitsOnce(given + [a], key)
    ensures Admitted(given + [a], key) <==> Admitted(given, key) || (a.oneTime && a.key == key)
  {
    var all := given + [a];
    if Admitted(given, key) {
      var i :| 0 <= i < |given| && given[i].oneTime && given[i].key == key;
      assert all[i] == given[i];
    }
    assert all[|given|] == a;
  }

  // ----- spent, or out of reach -----

  ghost predicate SpentOrAbsent(ds: seq<Domain>, key: string) {
    key in AllConsumed(ds) || Absent(ds, key)
  }

  /** A restart cannot bring back a network that the saved state does not have. */
  lemma NoReturn(c: Core, config: seq<NetConfig>, names: set<string>, key: string, i: nat)
    requires CoreOk(c) && Machine.ConfigOk(config) && Recover(c, config).Restored? && i < |config|
    requires Hashed(c.domains, names) && Names(config) <= names && IdsApart(names)
    requires Absent(c.domains, key) && A.Parse(key).Key?
    ensures config[i].name != A.Parse(key).network
  {
    RestoredAt(c, config, i);
    assert Machine.NetOk(config[i]) && config[i].name in Names(config);
    var j := FindId(c.domains, config[i].id);
    assert c.domains[j].name == config[i].name;
  }

  lemma RestartNames(c: Core, config: seq<NetConfig>, i: nat)
    requires CoreOk(c) && Recover(c, config).Restored? && i < |config|
    ensures Recover(c, config).core.domains[i].name == config[i].name
  {
    RebootDomain(c, config, i);
  }

  /** A spent key stays spent, or its network is gone. */
  lemma SpentRestarts(c: Core, config: seq<NetConfig>, key: string)
    requires CoreOk(c) && Machine.ConfigOk(config) && Recover(c, config).Restored? && key in AllConsumed(c.domains)
    ensures SpentOrAbsent(Recover(c, config).core.domains, key)
  {
    SpentSurvives(c, config, key);
    forall i | 0 <= i < |config| ensures Recover(c, config).core.domains[i].name == config[i].name {
      RestartNames(c, config, i);
    }
  }

  lemma RestartKeeps(c: Core, config: seq<NetConfig>, names: set<string>, key: string)
    requires CoreOk(c) && Machine.ConfigOk(config) && Recover(c, config).Restored?
    requires Hashed(c.domains, names) && Names(config) <= names && IdsApart(names)
    requires SpentOrAbsent(c.domains, key)
    ensures SpentOrAbsent(Recover(c, config).core.domains, key)
  {
    if key in AllConsumed(c.domains) {
      SpentRestarts(c, config, key);
    } else if A.Parse(key).Key? {
      forall i | 0 <= i < |config| ensures Recover(c, config).core.domains[i].name != A.Parse(key).network {
        RestartNames(c, config, i);
        NoReturn(c, config, names, key, i);
      }
    }
  }

  lemma RestartHashed(c: Core, config: seq<NetConfig>, names: set<string>)
    requires CoreOk(c) && Machine.ConfigOk(config) && Recover(c, config).Restored? && Names(config) <= names
    ensures Hashed(Recover(c, config).core.domains, names)
  {
    var x := Recover(c, config).core;
    RebootAll(c, config);
    forall i | 0 <= i < |config|
        ensures x.domains[i].name in names && x.domains[i].registry.networkId == NetworkId(x.domains[i].name) {
      assert Rebooted(c, config[i], x.domains[i]) && Machine.NetOk(config[i]) && config[i].name in Names(config);
    }
  }

  ghost predicate WorldHashed(w: World, names: set<string>) {
    && (w.saved.Some? ==> Hashed(w.saved.value.domains, names))
    && (w.Up? ==> Hashed(w.coordinator.core.domains, names))
  }

  /** Spent or out of reach, on file and in memory. */
  ghost predicate WorldSpent(w: World, key: string) {
    && w.saved.Some? && SpentOrAbsent(w.saved.value.domains, key)
    && (w.Up? ==> SpentOrAbsent(w.coordinator.core.domains, key))
  }

  lemma BeginHashed(config: seq<NetConfig>, version: nat, names: set<string>)
    requires Machine.ConfigOk(config) && Names(config) <= names
    ensures Hashed(Begin(config, version).core.domains, names)
  {
    Machine.StartOk(config);
    var ds := Configure(Fresh(config), config).domains;
    forall i | 0 <= i < |ds| ensures ds[i].name in names && ds[i].registry.networkId == NetworkId(ds[i].name) {
      assert ConfiguredNet(ds[i], config[i]) && Machine.NetOk(config[i]) && config[i].name in Names(config);
    }
  }

  lemma StartHashed(saved: Option<Core>, config: seq<NetConfig>, version: nat, names: set<string>)
    requires Machine.ConfigOk(config) && Names(config) <= names
    requires saved.Some? ==> CoreOk(saved.value) && Hashed(saved.value.domains, names)
    ensures WorldHashed(Start(saved, config, version), names)
  {
    if saved.None? {
      BeginHashed(config, version, names);
    } else if Recover(saved.value, config).Restored? {
      RestartHashed(saved.value, config, names);
    }
  }

  lemma {:induction false} LifeHashed(config: seq<NetConfig>, events: seq<Event>, names: set<string>)
    requires Machine.ConfigOk(config) && ConfigsOk(events) && AllNames(config, events) <= names
    ensures WorldHashed(Life(config, events), names)
  {
    if events == [] {
      StartHashed(None, config, 0, names);
    } else {
      var front, e := events[..|events| - 1], events[|events| - 1];
      LifeHashed(config, front, names);
      LifeOk(config, front);
      var w := Life(config, front);
      if e.Restart? {
        StartHashed(w.saved, e.config, e.version, names);
      } else if w.Up? {
        StepOnward(w.coordinator, e.op);
      }
    }
  }

  lemma StartSpent(saved: Core, config: seq<NetConfig>, version: nat, names: set<string>, key: string)
    requires CoreOk(saved) && Hashed(saved.domains, names) && SpentOrAbsent(saved.domains, key) && IdsApart(names)
    requires Machine.ConfigOk(config) && Names(config) <= names
    ensures WorldSpent(Start(Some(saved), config, version), key)
  {
    if Recover(saved, config).Restored? { RestartKeeps(saved, config, names, key); }
  }

  lemma ActSpent(c: Coordinator, saved: Option<Core>, op: Op, key: string)
    requires CoreOk(c.core) && WorldSpent(Up(c, saved), key)
    ensures WorldSpent(Act(c, saved, op), key)
  {
    StepOnward(c, op);
  }

  /** Every event keeps a key spent or its network away. */
  lemma HappenSpent(w: World, e: Event, names: set<string>, key: string)
    requires WorldOk(w) && WorldHashed(w, names) && WorldSpent(w, key) && IdsApart(names)
    requires e.Restart? ==> Machine.ConfigOk(e.config) && Names(e.config) <= names
    ensures WorldSpent(Happen(w, e), key)
  {
    if e.Restart? {
      StartSpent(w.saved.value, e.config, e.version, names, key);
    } else if w.Up? {
      ActSpent(w.coordinator, w.saved, e.op, key);
    }
  }

  /** An admission is written; under a one-time key it leaves the key spent on file and in memory, and it was not. */
  lemma AdmissionSpends(w: World, e: Event)
    requires WorldOk(w) && AdmissionOf(w, e).Some?
    ensures var a, x := AdmissionOf(w, e).value, Happen(w, e);
            && !SpentOrAbsent(w.coordinator.core.domains, a.key)
            && x.Up? && x.saved == Some(x.coordinator.core)
            && (a.oneTime ==> a.key in AllConsumed(x.coordinator.core.domains))
  {
    AdmissionMeans(w.coordinator.core, e.op.cmd, e.op.anchor);
  }

  /**
   * A key that admitted a node as a one-time key is spent or its network is away for good, and it admits nobody else.
   */
  lemma {:induction false} OneTimeOnce(config: seq<NetConfig>, events: seq<Event>, names: set<string>, key: string)
    requires Machine.ConfigOk(config) && ConfigsOk(events) && AllNames(config, events) <= names && IdsApart(names)
    ensures AdmitsOnce(Admissions(config, events), key)
    ensures Admitted(Admissions(config, events), key) ==> WorldSpent(Life(config, events), key)
  {
    if events != [] {
      var front, e := events[..|events| - 1], events[|events| - 1];
      OneTimeOnce(config, front, names, key);
      LifeOk(config, front);
      LifeHashed(config, front, names);
      var w := Life(config, front);
      if WorldSpent(w, key) { HappenSpent(w, e, names, key); }
      if AdmissionOf(w, e).Some? {
        AdmissionSpends(w, e);
        AdmitsOnceMore(Admissions(config, front), AdmissionOf(w, e).value, key);
      }
    }
  }

  // ----- whatever the names: written only while the key's network is there -----

  /** No operation writes while no network bears the name that the key carries. */
  ghost predicate WritesAtHome(config: seq<NetConfig>, events: seq<Event>, key: string) {
    events == [] ||
    (var front, e := events[..|events| - 1], events[|events| - 1];
     var w := Life(config, front);
     && WritesAtHome(config, front, key)
     && (w.Up? && e.Do? && Writes(w.coordinator.core, e.op) ==> !Absent(w.coordinator.core.domains, key)))
  }

  ghost predicate SpentOnFile(w: World, key: string) {
    && w.saved.Some? && key in AllConsumed(w.saved.value.domains)
    && (w.Up? ==> SpentOrAbsent(w.coordinator.core.domains, key))
  }

  lemma HappenOnFile(w: World, e: Event, key: string)
    requires WorldOk(w) && SpentOnFile(w, key) && (e.Restart? ==> Machine.ConfigOk(e.config))
    requires w.Up? && e.Do? && Writes(w.coordinator.core, e.op) ==> !Absent(w.coordinator.core.domains, key)
    ensures SpentOnFile(Happen(w, e), key)
  {
    if e.Restart? {
      if Recover(w.saved.value, e.config).Restored? { SpentRestarts(w.saved.value, e.config, key); }
    } else if w.Up? {
      StepOnward(w.coordinator, e.op);
    }
  }

  /** As long as nothing is written while its network is away, a one-time key admits once, and the file says so. */
  lemma {:induction false} OneTimeOnceOnFile(config: seq<NetConfig>, events: seq<Event>, key: string)
    requires Machine.ConfigOk(config) && ConfigsOk(events) && WritesAtHome(config, events, key)
    ensures AdmitsOnce(Admissions(config, events), key)
    ensures Admitted(Admissions(config, events), key) ==> SpentOnFile(Life(config, events), key)
  {
    if events != [] {
      var front, e := events[..|events| - 1], events[|events| - 1];
      OneTimeOnceOnFile(config, front, key);
      LifeOk(config, front);
      var w := Life(config, front);
      if SpentOnFile(w, key) { HappenOnFile(w, e, key); }
      if AdmissionOf(w, e).Some? {
        AdmissionSpends(w, e);
        AdmitsOnceMore(Admissions(config, front), AdmissionOf(w, e).value, key);
      }
    }
  }

  // ----- two names with one id -----

  /** A coordinator of one network. */
  ghost predicate Single(c: Core, name: string, id: u32) {
    CoreOk(c) && |c.domains| == 1 && c.domains[0].name == name && c.domains[0].registry.networkId == id
  }

  /** Every node of the network was registered with one public key. */
  ghost predicate OnlyPubkey(d: Domain, pk: Pubkey) {
    forall n :: n in d.registry.entries ==> d.registry.entries[n].pubkey == pk
  }

  lemma SingleKnown(c: Core, name: string, net: NetConfig)
    requires Single(c, name, net.id)
    ensures NetworksKnown(FreshDomains([net]), NodesBelow(c.domains, c.nextNodeId))
  {
    var nodes, blank := NodesBelow(c.domains, c.nextNodeId), FreshDomains([net]);
    NodesSound(c, c.nextNodeId);
    forall k | 0 <= k < |nodes| ensures FindId(blank, nodes[k].networkId) < |blank| {
      var i := Home(c, nodes[k]);
      assert blank[0].registry.networkId == nodes[k].networkId;
    }
  }

  lemma SingleVersion(c: Core, name: string, net: NetConfig)
    requires Single(c, name, net.id)
    ensures VersionsKnown(FreshDomains([net]), Snapshot(c))
  {
    assert c.domains[0].registry.networkId == net.id;
  }

  lemma ChecksPass(c: Core, s: CoordState)
    requires MaxNode(s.nodes) < s.nextNodeId && CheckNodes(c.domains, s.nodes).None? && VersionsKnown(c.domains, s)
    ensures RestoreState(c, s).Restored?
  {}

  lemma SinglePasses(c: Core, name: string, net: NetConfig, blank: Core, s: CoordState)
    requires Single(c, name, net.id) && blank == Fresh([net]) && s == Snapshot(c)
    ensures RestoreState(blank, s).Restored?
  {
    MaxBelow(c);
    ApartDistinct(c);
    SingleKnown(c, name, net);
    CheckExact(blank.domains, s.nodes);
    SingleVersion(c, name, net);
    ChecksPass(blank, s);
  }

  /** A restart into one network of the saved id is accepted, whatever the name. */
  lemma SingleRestores(c: Core, name: string, net: NetConfig)
    requires Single(c, name, net.id)
    ensures Recover(c, [net]).Restored?
  {
    SinglePasses(c, name, net, Fresh([net]), Snapshot(c));
  }

  lemma SingleRestarts(c: Core, name: string, net: NetConfig, pk: Pubkey)
    requires Single(c, name, net.id) && Machine.ConfigOk([net]) && OnlyPubkey(c.domains[0], pk)
    ensures var x := Recover(c, [net]);
            x.Restored? && Single(x.core, net.name, net.id) && OnlyPubkey(x.core.domains[0], pk)
            && x.core.domains[0].aclEnabled == net.aclEnabled
  {
    SingleRestores(c, name, net);
    var x := Recover(c, [net]).core;
    RebootOk(c, [net]);
    RestoredAt(c, [net], 0);
    RebootDomain(c, [net], 0);
    forall n | n in x.domains[0].registry.entries ensures x.domains[0].registry.entries[n].pubkey == pk {
      var i := Home(c, x.domains[0].registry.entries[n]);
    }
  }

  /** A listed key that is not spent in the saved state is good again after the restart. */
  lemma ListedReturns(c: Core, name: string, net: NetConfig, k: string)
    requires Single(c, name, net.id) && k !in AllConsumed(c.domains) && Mentions(net.keys, k)
    ensures Recover(c, [net]).Restored? && k in Recover(c, [net]).core.domains[0].registry.authKeys
  {
    SingleRestores(c, name, net);
    RestoredAt(c, [net], 0);
    RestoredKeys(c, net);
    var r := RestoreDomain(FreshDomain(net), Snapshot(c)).registry;
    LiveKeysAll(r.consumed, net.keys, k);
    ConfigureGives(r, net.keys, net.whitelist);
  }

  lemma RestoredKeys(c: Core, net: NetConfig)
    requires net.id in Snapshot(c).keyVersions && Distinct(NodesBelow(c.domains, c.nextNodeId))
    ensures var r := RestoreDomain(FreshDomain(net), Snapshot(c)).registry;
            r.authKeys == map[] && r.consumed == HomeKeys(AllConsumed(c.domains), net.name)
  {
    FilterDistinct(NodesBelow(c.domains, c.nextNodeId), net.id);
    RestoredEntries(net.id, Filter(NodesBelow(c.domains, c.nextNodeId), net.id),
        HomeKeys(AllConsumed(c.domains), net.name));
  }

  function Join(key: string, pk: Pubkey): Command {
    Register(key, pk, 0, [], 0)
  }

  function JoinEvent(key: string, pk: Pubkey): Event {
    Do(Logged(Join(key, pk), Anchor(0, 0), Orders([], [])))
  }

  /** With the key listed, a new public key gets in. */
  lemma JoinAdmitted(c: Core, name: string, key: string, pk: Pubkey, other: Pubkey)
    requires |c.domains| == 1 && Single(c, name, c.domains[0].registry.networkId)
    requires A.Parse(key).Key? && A.Parse(key).network == name && A.Parse(key).expiry == 0
    requires !c.domains[0].aclEnabled && key in c.domains[0].registry.authKeys && OnlyPubkey(c.domains[0], other)
            && pk != other
    ensures RegisterNode(c, Join(key, pk), Anchor(0, 0)).reply.Admitted?
  {
    assert AdmissibleIn(c.domains[0], Join(key, pk));
    AdmittedExactly(c, Join(key, pk), Anchor(0, 0));
  }

  ghost predicate Joined(c: Core, net: NetConfig, pk: Pubkey, key: string) {
    Single(c, net.name, net.id) && OnlyPubkey(c.domains[0], pk) && key in AllConsumed(c.domains)
  }

  /** The first admission: the key is spent and its network holds one node. */
  lemma FirstJoin(net: NetConfig, key: string, pk: Pubkey)
    requires Machine.ConfigOk([net]) && net.keys == [(key, OneTime)] && !net.aclEnabled
    requires A.Parse(key).Key? && A.Parse(key).expiry == 0
    ensures var c := Configure(Fresh([net]), [net]);
            var x := RegisterNode(c, Join(key, pk), Anchor(0, 0));
            x.reply.Admitted? && Policy(c, key) == Some(OneTime) && Joined(x.core, net, pk, key)
  {
    var c := Configure(Fresh([net]), [net]);
    Machine.StartOk([net]);
    ConfigureGives(Empty(net.id), net.keys, net.whitelist);
    assert Machine.NetOk(net) && net.keys[0].0 == key && net.keys[..0] == [];
    assert c.domains[0].registry.authKeys == map[key := OneTime];
    JoinAdmitted(c, net.name, key, pk, pk + [0]);
    RegisterCoreOk(c, Join(key, pk), Anchor(0, 0));
    var i := RegisterShape(c, Join(key, pk), Anchor(0, 0));
    AdmissionMeans(c, Join(key, pk), Anchor(0, 0));
  }

  lemma LifeSnoc(config: seq<NetConfig>, events: seq<Event>, e: Event)
    ensures Life(config, events + [e]) == Happen(Life(config, events), e)
    ensures var a := AdmissionOf(Life(config, events), e);
            Admissions(config, events + [e]) == Admissions(config, events) + if a.Some? then [a.value] else []
  {
    assert (events + [e])[..|events|] == events;
  }

  /** The key's own network, and another one, empty, for a name with the same id. */
  function HomeNet(name: string, key: string): NetConfig {
    NetConfig(name, NetworkId(name), [(key, OneTime)], [], false, {})
  }

  function AwayNet(name: string): NetConfig {
    NetConfig(name, NetworkId(name), [], [], false, {})
  }

  /** What is written while the key's network is away no longer has the key; back home, the key is good again. */
  lemma AwayAndBack(c: Core, a: string, b: string, key: string, pk: Pubkey, away: Core, x: Core)
    requires A.ValidNetwork(a) && A.ValidNetwork(b) && a != b && NetworkId(a) == NetworkId(b)
    requires A.Parse(key).Key? && A.Parse(key).network == a && Joined(c, HomeNet(a, key), pk, key)
    requires Recover(c, [AwayNet(b)]) == Restored(away)
    requires x == ApplyCommand(away, NoEndpoints(), Anchor(0, 0), Orders([], []))
    ensures Recover(x, [HomeNet(a, key)]).Restored? && Ready(Recover(x, [HomeNet(a, key)]).core, a, key, pk)
  {
    var home := HomeNet(a, key);
    OneConfigOk(home);
    OneConfigOk(AwayNet(b));
    SingleRestarts(c, a, AwayNet(b), pk);
    SpentSurvives(c, [AwayNet(b)], key);
    ApplyOk(away, NoEndpoints(), Anchor(0, 0), Orders([], []));
    SingleRestarts(x, b, home, pk);
    assert home.keys[0].0 == key;
    ListedReturns(x, b, home, key);
  }

  ghost predicate Ready(c: Core, name: string, key: string, pk: Pubkey) {
    && Single(c, name, NetworkId(name)) && OnlyPubkey(c.domains[0], pk)
    && !c.domains[0].aclEnabled && key in c.domains[0].registry.authKeys
  }

  /** The first node reports that it has no endpoints, which writes. */
  function NoEndpoints(): Command {
    SetEndpoints(1, [], [])
  }

  function ReportEvent(): Event {
    Do(Logged(NoEndpoints(), Anchor(0, 0), Orders([], [])))
  }

  /** The life in which it happens: something is written while the key's network is away. */
  function TwiceEvents(a: string, b: string, key: string): seq<Event> {
    [] + [JoinEvent(key, [1])] + [Restart([AwayNet(b)], 0)] + [ReportEvent()] + [Restart([HomeNet(a, key)], 0)]
        + [JoinEvent(key, [2])]
  }

  /** The same life without the write. */
  function OnceEvents(a: string, b: string, key: string): seq<Event> {
    [] + [JoinEvent(key, [1])] + [Restart([AwayNet(b)], 0)] + [Restart([HomeNet(a, key)], 0)] + [JoinEvent(key, [2])]
  }

  lemma OneName(net: NetConfig)
    ensures Names([net]) == {net.name}
  {
    assert [net][0] == net;
  }

  lemma TwiceConfigs(a: string, b: string, key: string)
    requires A.ValidNetwork(a) && A.ValidNetwork(b) && A.Parse(key).Key? && A.Parse(key).network == a
    ensures Machine.ConfigOk([HomeNet(a, key)]) && ConfigsOk(TwiceEvents(a, b, key)) && ConfigsOk(OnceEvents(a, b, key))
  {
    OneConfigOk(HomeNet(a, key));
    OneConfigOk(AwayNet(b));
    var e1, e2 := [] + [JoinEvent(key, [1])], [] + [JoinEvent(key, [1])] + [Restart([AwayNet(b)], 0)];
    ConfigsSnoc([], JoinEvent(key, [1]));
    ConfigsSnoc(e1, Restart([AwayNet(b)], 0));
    ConfigsSnoc(e2, ReportEvent());
    ConfigsSnoc(e2 + [ReportEvent()], Restart([HomeNet(a, key)], 0));
    ConfigsSnoc(e2 + [ReportEvent()] + [Restart([HomeNet(a, key)], 0)], JoinEvent(key, [2]));
    ConfigsSnoc(e2, Restart([HomeNet(a, key)], 0));
    ConfigsSnoc(e2 + [Restart([HomeNet(a, key)], 0)], JoinEvent(key, [2]));
  }

  lemma ConfigsSnoc(events: seq<Event>, e: Event)
    requires ConfigsOk(events) && (e.Restart? ==> Machine.ConfigOk(e.config))
    ensures ConfigsOk(events + [e])
  {}

  lemma ConfigsFront(events: seq<Event>, e: Event)
    requires ConfigsOk(events + [e])
    ensures ConfigsOk(events)
  {
    assert forall i :: 0 <= i < |events| ==> (events + [e])[i] == events[i];
  }

  lemma OneConfigOk(net: NetConfig)
    requires Machine.NetOk(net)
    ensures Machine.ConfigOk([net])
  {}

  lemma TwiceNames(a: string, b: string, key: string)
    ensures AllNames([HomeNet(a, key)], TwiceEvents(a, b, key)) == {a, b}
  {
    var config, away := [HomeNet(a, key)], [AwayNet(b)];
    OneName(HomeNet(a, key));
    OneName(AwayNet(b));
    var e1 := [] + [JoinEvent(key, [1])];
    var e3 := e1 + [Restart(away, 0)] + [ReportEvent()];
    NamesSnoc(config, [], JoinEvent(key, [1]));
    NamesSnoc(config, e1, Restart(away, 0));
    NamesSnoc(config, e1 + [Restart(away, 0)], ReportEvent());
    NamesSnoc(config, e3, Restart(config, 0));
    NamesSnoc(config, e3 + [Restart(config, 0)], JoinEvent(key, [2]));
  }

  lemma NamesSnoc(config: seq<NetConfig>, events: seq<Event>, e: Event)
    ensures AllNames(config, events + [e]) == AllNames(config, events) + if e.Restart? then Names(e.config) else {}
  {
    assert (events + [e])[..|events|] == events;
  }

  /** The first admission, on file and in memory. */
  lemma TwiceFirst(config: seq<NetConfig>, home: NetConfig, key: string, w: World)
    requires config == [home] && Machine.ConfigOk(config) && home.keys == [(key, OneTime)] && !home.aclEnabled
    requires A.Parse(key).Key? && A.Parse(key).expiry == 0 && w == Happen(Life(config, []), JoinEvent(key, [1]))
    ensures w.Up? && w.saved == Some(w.coordinator.core) && Joined(w.coordinator.core, home, [1], key)
    ensures AdmissionOf(Life(config, []), JoinEvent(key, [1])) == Some(Admission(1, key, true))
  {
    FirstJoin(home, key, [1]);
  }

  /** Away, written, and back. */
  lemma TwiceReady(c: Core, a: string, b: string, key: string, w: World)
    requires A.ValidNetwork(a) && A.ValidNetwork(b) && a != b && NetworkId(a) == NetworkId(b)
    requires A.Parse(key).Key? && A.Parse(key).network == a && Joined(c, HomeNet(a, key), [1], key)
    requires w == Happen(Happen(Start(Some(c), [AwayNet(b)], 0), ReportEvent()), Restart([HomeNet(a, key)], 0))
    ensures w.Up? && Ready(w.coordinator.core, a, key, [1])
  {
    SingleRestores(c, a, AwayNet(b));
    var away := Recover(c, [AwayNet(b)]).core;
    AwayAndBack(c, a, b, key, [1], away, ApplyCommand(away, NoEndpoints(), Anchor(0, 0), Orders([], [])));
  }

  lemma TwiceSecond(w: World, a: string, key: string)
    requires w.Up? && Ready(w.coordinator.core, a, key, [1])
    requires A.Parse(key).Key? && A.Parse(key).network == a && A.Parse(key).expiry == 0
    ensures AdmissionOf(w, JoinEvent(key, [2])).Some? && AdmissionOf(w, JoinEvent(key, [2])).value.key == key
  {
    JoinAdmitted(w.coordinator.core, a, key, [2], [1]);
  }

  lemma TwiceAdmissions(a: string, b: string, key: string)
    requires A.ValidNetwork(a) && A.ValidNetwork(b) && a != b && NetworkId(a) == NetworkId(b)
    requires A.Parse(key).Key? && A.Parse(key).network == a && A.Parse(key).expiry == 0
    ensures !AdmitsOnce(Admissions([HomeNet(a, key)], TwiceEvents(a, b, key)), key)
  {
    var home, away := HomeNet(a, key), AwayNet(b);
    OneConfigOk(home);
    var config, e1 := [home], [] + [JoinEvent(key, [1])];
    LifeSnoc(config, [], JoinEvent(key, [1]));
    TwiceFirst(config, home, key, Life(config, e1));
    var e2 := e1 + [Restart([away], 0)];
    LifeSnoc(config, e1, Restart([away], 0));
    var e3 := e2 + [ReportEvent()];
    LifeSnoc(config, e2, ReportEvent());
    var e4 := e3 + [Restart([home], 0)];
    LifeSnoc(config, e3, Restart([home], 0));
    TwiceReady(Life(config, e1).coordinator.core, a, b, key, Life(config, e4));
    TwiceSecond(Life(config, e4), a, key);
    LifeSnoc(config, e4, JoinEvent(key, [2]));
    NotOnce(Admissions(config, e4 + [JoinEvent(key, [2])]), key);
  }

  lemma NotOnce(given: seq<Admission>, key: string)
    requires |given| >= 2 && given[0].oneTime && given[0].key == key && given[1].key == key
    ensures !AdmitsOnce(given, key)
  {}

  lemma WritesSnoc(config: seq<NetConfig>, events: seq<Event>, e: Event, key: string)
    requires WritesAtHome(config, events, key)
    requires var w := Life(config, events);
             w.Up? && e.Do? && Writes(w.coordinator.core, e.op) ==> !Absent(w.coordinator.core.domains, key)
    ensures WritesAtHome(config, events + [e], key)
  {
    assert (events + [e])[..|events|] == events;
  }

  /** Without the write the same life admits once: the restart itself leaves the file alone. */
  lemma OnceAdmissions(a: string, b: string, key: string)
    requires A.ValidNetwork(a) && A.ValidNetwork(b) && A.Parse(key).Key? && A.Parse(key).network == a
    ensures AdmitsOnce(Admissions([HomeNet(a, key)], OnceEvents(a, b, key)), key)
  {
    var config, e1 := [HomeNet(a, key)], [] + [JoinEvent(key, [1])];
    var e2 := e1 + [Restart([AwayNet(b)], 0)];
    var e3 := e2 + [Restart(config, 0)];
    TwiceConfigs(a, b, key);
    HomeFirst(config, a, key);
    WritesSnoc(config, [], JoinEvent(key, [1]), key);
    WritesSnoc(config, e1, Restart([AwayNet(b)], 0), key);
    WritesSnoc(config, e2, Restart(config, 0), key);
    ConfigsFront(e3, JoinEvent(key, [2]));
    ConfigsFront(e2, Restart(config, 0));
    LifeOk(config, e2);
    HomeAgain(config, e2, a, key);
    WritesSnoc(config, e3, JoinEvent(key, [2]), key);
    OneTimeOnceOnFile(config, OnceEvents(a, b, key), key);
  }

  lemma HomeFirst(config: seq<NetConfig>, a: string, key: string)
    requires A.Parse(key).Key? && A.Parse(key).network == a && config == [HomeNet(a, key)] && Machine.ConfigOk(config)
    ensures Life(config, []).Up? && !Absent(Life(config, []).coordinator.core.domains, key)
  {
    Machine.StartOk(config);
    assert ConfiguredNet(Begin(config, 0).core.domains[0], config[0]);
  }

  lemma HomeAgain(config: seq<NetConfig>, events: seq<Event>, a: string, key: string)
    requires A.Parse(key).Key? && A.Parse(key).network == a && config == [HomeNet(a, key)] && Machine.ConfigOk(config)
    requires WorldOk(Life(config, events))
    ensures var w := Life(config, events + [Restart(config, 0)]);
            w.Up? ==> !Absent(w.coordinator.core.domains, key)
  {
    LifeSnoc(config, events, Restart(config, 0));
    var saved := Life(config, events).saved;
    if saved.None? {
      Machine.StartOk(config);
      assert ConfiguredNet(Begin(config, 0).core.domains[0], config[0]);
    } else if Recover(saved.value, config).Restored? {
      RestartNames(saved.value, config, 0);
    }
  }

  /** Every life configured with these names admits once per one-time key. */
  ghost predicate LivesAdmitOnce(names: set<string>) {
    forall config, events, key ::
      Machine.ConfigOk(config) && ConfigsOk(events) && AllNames(config, events) <= names ==>
          AdmitsOnce(Admissions(config, events), key)
  }

  /**
   * Over all lives configured with some names, one-time keys admit once exactly when no two of the names hash to one
   * id.
   */
  lemma OneTimeOnceExactly(names: set<string>)
    requires forall n :: n in names ==> A.ValidNetwork(n)
    ensures LivesAdmitOnce(names) <==> IdsApart(names)
  {
    if IdsApart(names) {
      forall config, events, key | Machine.ConfigOk(config) && ConfigsOk(events) && AllNames(config, events) <= names
        ensures AdmitsOnce(Admissions(config, events), key)
      {
        OneTimeOnce(config, events, names, key);
      }
    } else {
      var a, b :| a in names && b in names && NetworkId(a) == NetworkId(b) && a != b;
      var key := KeyOf(a);
      TwiceConfigs(a, b, key);
      TwiceNames(a, b, key);
      TwiceAdmissions(a, b, key);
    }
  }

  lemma KeyOf(name: string) returns (key: string)
    requires A.ValidNetwork(name)
    ensures A.Parse(key).Key? && A.Parse(key).network == name && A.Parse(key).expiry == 0
  {
    var secret: seq<byte> := seq(A.AUTH_KEY_SECRET_LEN, _ => 0);
    key := A.Format(name, 0, secret);
    A.ParseFormat(name, 0, secret);
  }

  /** Such names exist, so a spent key can revive. */
  lemma SpentKeyRevives(a: string, b: string)
    requires a == "gwzx" && b == "16cd"
    ensures !LivesAdmitOnce({a, b})
  {
    Collision(a, b);
    OneTimeOnceExactly({a, b});
  }
}
