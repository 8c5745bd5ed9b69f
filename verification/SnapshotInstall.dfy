/** Installing a snapshot sent by another replica: the state arrives, the configuration does not. */
module SnapshotInstall {
  import opened Bytes
  import opened Registries
  import opened CoordCore
  import opened Persistence
  import opened Recovery
  import opened Machine
  import opened CoordPaths
  import opened Replicas
  import K = KeyRotation
  import N = NetworkDomain
  import P = PathModel

  /**
   * A fresh coordinator with the received state; the auth keys, whitelists and policies of the configuration are not
   * applied.
   */
  function Install(config: seq<NetConfig>, c: Core): Restored {
    RestoreState(Fresh(config), Snapshot(c))
  }

  function Stripped(d: Domain): Domain {
    d.(registry := d.registry.(authKeys := map[], whitelist := []), aclEnabled := false, exitAllow := {})
  }

  lemma InstalledDomain(c: Core, config: seq<NetConfig>, i: nat)
    requires CoreOk(c) && Configured(c, config) && PubkeysApart(c.domains) && i < |config|
    requires config[i].id in Snapshot(c).keyVersions
    ensures RestoreDomain(FreshDomain(config[i]), Snapshot(c)) == Stripped(c.domains[i])
  {
    assert ConfiguredNet(c.domains[i], config[i]);
    RegistryBack(c, config, i);
    SideBack(c, config, i);
  }

  function StrippedAll(ds: seq<Domain>): (r: seq<Domain>)
    ensures |r| == |ds| && forall i :: 0 <= i < |ds| ==> r[i] == Stripped(ds[i])
  {
    if ds == [] then [] else StrippedAll(ds[..|ds| - 1]) + [Stripped(ds[|ds| - 1])]
  }

  /** A core as it is without any configuration. */
  function Bare(c: Core): Core {
    c.(domains := StrippedAll(c.domains))
  }

  /** The received core without its configuration. */
  lemma Installed(c: Core, config: seq<NetConfig>)
    requires CoreOk(c) && Configured(c, config) && PubkeysApart(c.domains)
    ensures Install(config, c) == Restored(Bare(c))
  {
    AcceptedExactly(c, config);
    OtherChecksPass(c, config);
    InstalledDomains(c, config, RestoreDomains(FreshDomains(config), Snapshot(c)));
  }

  lemma InstalledDomains(c: Core, config: seq<NetConfig>, ds: seq<Domain>)
    requires CoreOk(c) && Configured(c, config) && PubkeysApart(c.domains)
    requires VersionsKnown(FreshDomains(config), Snapshot(c)) && ds == RestoreDomains(FreshDomains(config), Snapshot(c))
    ensures ds == StrippedAll(c.domains)
  {
    forall i | 0 <= i < |config| ensures ds[i] == Stripped(c.domains[i]) {
      KeyVersionsKnown(c, config, i);
      InstalledDomain(c, config, i);
    }
  }

  /** Applying the configuration after the installation makes the state right. */
  lemma InstallThenConfigure(c: Core, config: seq<NetConfig>)
    requires CoreOk(c) && Configured(c, config) && PubkeysApart(c.domains)
    ensures Install(config, c).Restored? && |Install(config, c).core.domains| == |config|
    ensures Configure(Install(config, c).core, config) == c
  {
    RestoreSnapshot(c, config);
  }

  // ----- every command but an admission commutes with leaving the configuration out -----

  lemma SameFinds(ds: seq<Domain>, name: string, id: u32, node: NodeId)
    ensures FindName(StrippedAll(ds), name) == FindName(ds, name)
    ensures FindId(StrippedAll(ds), id) == FindId(ds, id)
    ensures FindNode(StrippedAll(ds), node) == FindNode(ds, node)
  {
    var bare := StrippedAll(ds);
    assert forall i :: 0 <= i < |ds| ==>
        bare[i].name == ds[i].name && bare[i].registry.networkId == ds[i].registry.networkId
                                         && bare[i].registry.entries == ds[i].registry.entries;
  }

  lemma SameHome(ds: seq<Domain>, node: NodeId)
    ensures DomainOf(StrippedAll(ds), node) == DomainOf(ds, node)
  {
    SameFinds(ds, "", 0, node);
    var i := FindNode(ds, node);
    if i < |ds| { SameFinds(ds, "", ds[i].registry.entries[node].networkId, node); }
  }

  lemma StrippedUpdate(ds: seq<Domain>, i: nat, d: Domain)
    requires i < |ds|
    ensures StrippedAll(ds[i := d]) == StrippedAll(ds)[i := Stripped(d)]
  {}

  lemma StrippedFlush(ds: seq<Domain>, now: nat)
    ensures FlushAll(StrippedAll(ds), now) == StrippedAll(FlushAll(ds, now))
  {}

  lemma RevokeCommutes(c: Core, node: NodeId, now: nat, anchor: Anchor, orders: Orders)
    ensures RevokeNode(Bare(c), node, now, anchor, orders) == Bare(RevokeNode(c, node, now, anchor, orders))
  {
    StrippedFlush(c.domains, now);
    var ds := FlushAll(c.domains, now);
    SameFinds(ds, "", 0, node);
    if FindNode(ds, node) < |ds| { RevokeFoundCommutes(c, node, now, anchor, orders, ds, FindNode(ds, node)); }
  }

  lemma RevokeFoundCommutes(c: Core, node: NodeId, now: nat, anchor: Anchor, orders: Orders, ds: seq<Domain>, i: nat)
    requires ds == FlushAll(c.domains, now) && StrippedAll(ds) == FlushAll(StrippedAll(c.domains), now)
    requires i == FindNode(ds, node) == FindNode(StrippedAll(ds), node) && i < |ds|
    ensures RevokeNode(Bare(c), node, now, anchor, orders) == Bare(RevokeNode(c, node, now, anchor, orders))
  {
    var d := DropNode(ds[i], node, now, orders.pass);
    StrippedDrop(ds[i], node, now, orders.pass);
    RevokeIs(c, node, now, anchor, orders, ds, i, d);
    RevokeIs(Bare(c), node, now, anchor, orders, StrippedAll(ds), i, Stripped(d));
    StrippedUpdate(ds, i, d);
  }

  lemma StrippedDrop(d: Domain, node: NodeId, now: nat, pass: seq<P.Pair>)
    ensures DropNode(Stripped(d), node, now, pass) == Stripped(DropNode(d, node, now, pass))
  {}

  lemma TableCommutes(c: Core, i: nat, op: N.DomainOp)
    requires i < |c.domains|
    ensures UpdateTable(Bare(c), i, op) == Bare(UpdateTable(c, i, op))
  {
    StrippedUpdate(c.domains, i, c.domains[i].(table := PathStep(c.domains[i].table, op)));
  }

  lemma RequestIs(c: Core, source: NodeId, dest: NodeId, max: nat, now: nat, i: nat, j: nat, k: nat)
    requires i == DomainOf(c.domains, source) && j == DomainOf(c.domains, dest) && i < |c.domains| && j < |c.domains|
    requires c.domains[i].registry.networkId == c.domains[j].registry.networkId
    requires k == FindId(c.domains, c.domains[i].registry.networkId)
    ensures k < |c.domains|
    ensures RequestNodePaths(c, source, dest, max, now)
         == UpdateTable(c, k, N.RequestPaths(P.Pair(source, dest), max, now))
  {}

  lemma RequestCommutes(c: Core, source: NodeId, dest: NodeId, max: nat, now: nat)
    ensures RequestNodePaths(Bare(c), source, dest, max, now) == Bare(RequestNodePaths(c, source, dest, max, now))
  {
    SameHome(c.domains, source);
    SameHome(c.domains, dest);
    var i, j := DomainOf(c.domains, source), DomainOf(c.domains, dest);
    if i < |c.domains| && j < |c.domains| && c.domains[i].registry.networkId == c.domains[j].registry.networkId {
      SameFinds(c.domains, "", c.domains[i].registry.networkId, source);
      var k := FindId(c.domains, c.domains[i].registry.networkId);
      RequestIs(c, source, dest, max, now, i, j, k);
      RequestIs(Bare(c), source, dest, max, now, i, j, k);
      TableCommutes(c, k, N.RequestPaths(P.Pair(source, dest), max, now));
    }
  }

  lemma RosterIs(c: Core, id: u32, roster: seq<NodeId>, now: nat, anchor: Anchor, orders: Orders, i: nat)
    requires i == FindId(c.domains, id)
    ensures ApplyCommand(c, SetRelayRoster(id, roster, now), anchor, orders)
         == if i == |c.domains| then c else UpdateTable(c, i, N.ApplyRoster(roster, orders.drops, orders.pass, now))
  {}

  lemma RosterCommutes(c: Core, id: u32, roster: seq<NodeId>, now: nat, anchor: Anchor, orders: Orders)
    ensures ApplyCommand(Bare(c), SetRelayRoster(id, roster, now), anchor, orders)
         == Bare(ApplyCommand(c, SetRelayRoster(id, roster, now), anchor, orders))
  {
    SameFinds(c.domains, "", id, 0);
    var i := FindId(c.domains, id);
    RosterIs(c, id, roster, now, anchor, orders, i);
    RosterIs(Bare(c), id, roster, now, anchor, orders, i);
    if i < |c.domains| { TableCommutes(c, i, N.ApplyRoster(roster, orders.drops, orders.pass, now)); }
  }

  lemma RotateIs(c: Core, name: string, anchor: Anchor, orders: Orders, i: nat)
    requires i == FindName(c.domains, name) && i < |c.domains|
    ensures ApplyCommand(c, RotateMasterKey(name), anchor, orders)
         == c.(domains := c.domains[i := c.domains[i].(keys := K.Rotate(c.domains[i].keys))])
  {}

  lemma RotateCommutes(c: Core, name: string, anchor: Anchor, orders: Orders)
    ensures ApplyCommand(Bare(c), RotateMasterKey(name), anchor, orders)
         == Bare(ApplyCommand(c, RotateMasterKey(name), anchor, orders))
  {
    SameFinds(c.domains, name, 0, 0);
    var i := FindName(c.domains, name);
    if i < |c.domains| {
      RotateIs(c, name, anchor, orders, i);
      RotateIs(Bare(c), name, anchor, orders, i);
      StrippedUpdate(c.domains, i, c.domains[i].(keys := K.Rotate(c.domains[i].keys)));
    }
  }

  lemma QuietCommutes(c: Core, cmd: Command, anchor: Anchor, orders: Orders)
    requires Quiet(cmd)
    ensures ApplyCommand(Bare(c), cmd, anchor, orders) == Bare(ApplyCommand(c, cmd, anchor, orders))
  {
    if cmd.RequestPaths? {
      RequestCommutes(c, cmd.source, cmd.dest, cmd.max, cmd.now);
    } else if cmd.SetRelayRoster? {
      RosterCommutes(c, cmd.network, cmd.roster, cmd.now, anchor, orders);
    } else if cmd.RotateMasterKey? {
      RotateCommutes(c, cmd.name, anchor, orders);
    } else if cmd.FlushRevokeRotations? {
      StrippedFlush(c.domains, cmd.now);
    }
  }

  /** No network has a key or asks for a capability. */
  ghost predicate Keyless(c: Core) {
    forall i :: 0 <= i < |c.domains| ==> c.domains[i].registry.authKeys == map[] && !c.domains[i].aclEnabled
  }

  /** Without keys nothing is admitted. */
  lemma NoKeysNoAdmission(x: Core, cmd: Command, anchor: Anchor)
    requires cmd.Register? && Keyless(x)
    ensures RegisterNode(x, cmd, anchor) == Registration(x, Refused(InvalidAuthKey))
  {}

  /** A command after which a core and the bare one differ by more than the configuration. */
  ghost predicate Admits(c: Core, cmd: Command) {
    cmd.Register? && Admissible(c, cmd)
  }

  lemma NotAdmitted(c: Core, cmd: Command, anchor: Anchor)
    requires CoreOk(c) && cmd.Register? && !Admissible(c, cmd)
    ensures RegisterNode(c, cmd, anchor).core == c
  {
    AdmittedExactly(c, cmd, anchor);
    var i := RegisterShape(c, cmd, anchor);
  }

  /** Under the same orders, every command but an admission commutes with leaving the configuration out. */
  lemma BareCommutes(c: Core, cmd: Command, anchor: Anchor, orders: Orders)
    requires CoreOk(c) && !Admits(c, cmd)
    ensures ApplyCommand(Bare(c), cmd, anchor, orders) == Bare(ApplyCommand(c, cmd, anchor, orders))
  {
    if cmd.Register? {
      NoKeysNoAdmission(Bare(c), cmd, anchor);
      NotAdmitted(c, cmd, anchor);
    } else if cmd.Revoke? {
      RevokeCommutes(c, cmd.node, cmd.now, anchor, orders);
    } else {
      QuietCommutes(c, cmd, anchor, orders);
    }
  }

  lemma BareRevokeListed(c: Core, node: NodeId, now: nat, orders: Orders, ds: seq<Domain>, i: nat)
    requires Listed(c, Command.Revoke(node, now), orders) && ds == FlushAll(c.domains, now) && i == FindNode(ds, node)
    ensures Listed(Bare(c), Command.Revoke(node, now), orders)
  {
    StrippedFlush(c.domains, now);
    SameFinds(ds, "", 0, node);
  }

  lemma BareListed(c: Core, cmd: Command, orders: Orders)
    requires Listed(c, cmd, orders)
    ensures Listed(Bare(c), cmd, orders)
  {
    if cmd.Revoke? {
      var ds := FlushAll(c.domains, cmd.now);
      BareRevokeListed(c, cmd.node, cmd.now, orders, ds, FindNode(ds, cmd.node));
    } else if cmd.SetRelayRoster? {
      SameFinds(c.domains, "", cmd.network, 0);
    }
  }

  /** Agreement of a replica without configuration with a configured one: all but configuration and path ids. */
  ghost predicate Agrees(x: Core, c: Core) {
    SameCore(x, Bare(c))
  }

  lemma AgreesOn(x: Core, c: Core, cmd: Command, anchor: Anchor, o: Orders, p: Orders)
    requires CoreOk(c) && Agrees(x, c) && Listed(c, cmd, o) && Listed(x, cmd, p) && !Admits(c, cmd)
    ensures Agrees(ApplyCommand(x, cmd, anchor, p), ApplyCommand(c, cmd, anchor, o))
  {
    BareListed(c, cmd, o);
    CommandSame(x, Bare(c), cmd, anchor, p, o);
    BareCommutes(c, cmd, anchor, o);
  }

  lemma AgreesKeyless(x: Core, c: Core)
    requires Agrees(x, c)
    ensures Keyless(x) && x.nextNodeId == c.nextNodeId
  {
    forall i | 0 <= i < |x.domains| ensures x.domains[i].registry.authKeys == map[] && !x.domains[i].aclEnabled {
      assert SameNet(x.domains[i], Bare(c).domains[i]);
    }
  }

  /**
   * A replica without configuration stays in agreement over a command, each with its own orders, exactly when it is no
   * admissible registration.
   */
  lemma AgreesExactly(x: Core, c: Core, cmd: Command, anchor: Anchor, o: Orders, p: Orders)
    requires CoreOk(c) && Agrees(x, c) && Listed(c, cmd, o) && Listed(x, cmd, p)
    ensures Agrees(ApplyCommand(x, cmd, anchor, p), ApplyCommand(c, cmd, anchor, o)) <==> !Admits(c, cmd)
  {
    AgreesKeyless(x, c);
    if Admits(c, cmd) {
      KeylessStep(x, cmd, anchor, p);
      NextMoves(c, cmd, anchor, o);
    } else {
      AgreesOn(x, c, cmd, anchor, o, p);
    }
  }

  // ----- the rest of the log -----

  /** The entries from one position of the log up to another. */
  function Replay(c: Core, log: seq<Entry>, m: nat, n: nat, orders: seq<Orders>): Core
    requires m <= n <= |log| && n <= |orders|
    decreases n
  {
    if n == m then c else ApplyEntry(Replay(c, log, m, n - 1, orders), log[n - 1], n - 1, orders[n - 1])
  }

  ghost predicate AdmitsEntry(c: Core, e: Entry) {
    e.payload.Normal? && Admits(c, e.payload.cmd)
  }

  /** How many entries between the positions are registrations that the configured replicas admit. */
  ghost function AdmissionsIn(c: Core, log: seq<Entry>, m: nat, n: nat, orders: seq<Orders>): nat
    requires m <= n <= |log| && n <= |orders|
    decreases n
  {
    if n == m then 0
    else AdmissionsIn(c, log, m, n - 1, orders) + if AdmitsEntry(Replay(c, log, m, n - 1, orders), log[n - 1]) then 1
        else 0
  }

  lemma KeylessStep(x: Core, cmd: Command, anchor: Anchor, orders: Orders)
    requires Keyless(x)
    ensures var y := ApplyCommand(x, cmd, anchor, orders); Keyless(y) && y.nextNodeId == x.nextNodeId
  {
    if cmd.Register? {
      NoKeysNoAdmission(x, cmd, anchor);
    } else if cmd.Revoke? {
      KeylessRevoke(x, cmd.node, cmd.now, anchor, orders);
    } else {
      QuietEntries(x, cmd, anchor, orders);
      QuietNext(x, cmd, anchor, orders);
      var y := ApplyCommand(x, cmd, anchor, orders);
      assert forall i :: 0 <= i < |x.domains| ==> SameButSides(x.domains[i], y.domains[i]);
    }
  }

  lemma KeylessRevoke(x: Core, node: NodeId, now: nat, anchor: Anchor, orders: Orders)
    requires Keyless(x)
    ensures var y := RevokeNode(x, node, now, anchor, orders); Keyless(y) && y.nextNodeId == x.nextNodeId
  {
    var ds := FlushAll(x.domains, now);
    var j := FindNode(ds, node);
    if j < |ds| { assert DropNode(ds[j], node, now, orders.pass).registry.authKeys == ds[j].registry.authKeys; }
  }

  lemma QuietNext(c: Core, cmd: Command, anchor: Anchor, orders: Orders)
    requires Quiet(cmd)
    ensures ApplyCommand(c, cmd, anchor, orders).nextNodeId == c.nextNodeId
  {}

  lemma {:induction false} KeylessReplay(x: Core, log: seq<Entry>, m: nat, n: nat, orders: seq<Orders>)
    requires Keyless(x) && m <= n <= |log| && n <= |orders|
    ensures Keyless(Replay(x, log, m, n, orders)) && Replay(x, log, m, n, orders).nextNodeId == x.nextNodeId
    decreases n
  {
    if n > m {
      KeylessReplay(x, log, m, n - 1, orders);
      var y, e := Replay(x, log, m, n - 1, orders), log[n - 1];
      if e.payload.Normal? { KeylessStep(y, e.payload.cmd, Anchor(n - 1, e.term), orders[n - 1]); }
    }
  }

  /** Only an admission moves the allocator. */
  lemma NextMoves(c: Core, cmd: Command, anchor: Anchor, orders: Orders)
    requires CoreOk(c)
    ensures ApplyCommand(c, cmd, anchor, orders).nextNodeId == c.nextNodeId + if Admits(c, cmd) then 1 else 0
  {
    if cmd.Register? {
      AdmittedExactly(c, cmd, anchor);
      var i := RegisterShape(c, cmd, anchor);
    } else if Quiet(cmd) {
      QuietNext(c, cmd, anchor, orders);
    }
  }

  /** A good core, named so that its parts stay out of the way. */
  ghost predicate Good(c: Core) {
    CoreOk(c)
  }

  lemma EntryNext(c: Core, log: seq<Entry>, n: nat, orders: seq<Orders>)
    requires Good(c) && 0 < n <= |log| && n <= |orders|
    ensures var x := ApplyEntry(c, log[n - 1], n - 1, orders[n - 1]);
            Good(x) && x.nextNodeId == c.nextNodeId + if AdmitsEntry(c, log[n - 1]) then 1 else 0
  {
    var e := log[n - 1];
    if e.payload.Normal? {
      ApplyOk(c, e.payload.cmd, Anchor(n - 1, e.term), orders[n - 1]);
      NextMoves(c, e.payload.cmd, Anchor(n - 1, e.term), orders[n - 1]);
    }
  }

  lemma {:induction false} ReplayOk(c: Core, log: seq<Entry>, m: nat, n: nat, orders: seq<Orders>)
    requires Good(c) && m <= n <= |log| && n <= |orders|
    ensures Good(Replay(c, log, m, n, orders))
    decreases n
  {
    if n > m {
      ReplayOk(c, log, m, n - 1, orders);
      EntryNext(Replay(c, log, m, n - 1, orders), log, n, orders);
    }
  }

  /** The allocator counts the admissions. */
  lemma {:induction false} NextReplay(c: Core, log: seq<Entry>, m: nat, n: nat, orders: seq<Orders>)
    requires Good(c) && m <= n <= |log| && n <= |orders|
    ensures Replay(c, log, m, n, orders).nextNodeId == c.nextNodeId + AdmissionsIn(c, log, m, n, orders)
    decreases n
  {
    if n > m {
      NextReplay(c, log, m, n - 1, orders);
      ReplayOk(c, log, m, n - 1, orders);
      EntryNext(Replay(c, log, m, n - 1, orders), log, n, orders);
    }
  }

  /** Every command between the positions met real listings. */
  ghost predicate ReplayListed(c: Core, log: seq<Entry>, m: nat, n: nat, orders: seq<Orders>)
    requires m <= n <= |log| && n <= |orders|
    decreases n
  {
    n == m ||
    (ReplayListed(c, log, m, n - 1, orders) && ListedEntry(Replay(c, log, m, n - 1, orders), log[n - 1], orders[n - 1]))
  }

  lemma EntryAgrees(x: Core, c: Core, e: Entry, index: nat, o: Orders, p: Orders)
    requires Good(c) && Agrees(x, c) && ListedEntry(c, e, o) && ListedEntry(x, e, p) && !AdmitsEntry(c, e)
    ensures Agrees(ApplyEntry(x, e, index, p), ApplyEntry(c, e, index, o))
  {
    if e.payload.Normal? { AgreesOn(x, c, e.payload.cmd, Anchor(index, e.term), o, p); }
  }

  lemma {:induction false} ReplayAgrees(x: Core, c: Core, log: seq<Entry>, m: nat, n: nat, o: seq<Orders>,
      p: seq<Orders>)
    requires Good(c) && Agrees(x, c) && m <= n <= |log| && n <= |o| && n <= |p|
    requires ReplayListed(c, log, m, n, o) && ReplayListed(x, log, m, n, p) && AdmissionsIn(c, log, m, n, o) == 0
    ensures Agrees(Replay(x, log, m, n, p), Replay(c, log, m, n, o))
    decreases n
  {
    if n > m {
      ReplayAgrees(x, c, log, m, n - 1, o, p);
      ReplayOk(c, log, m, n - 1, o);
      EntryAgrees(Replay(x, log, m, n - 1, p), Replay(c, log, m, n - 1, o), log[n - 1], n - 1, o[n - 1], p[n - 1]);
    }
  }

  lemma BareSame(s: Core, c: Core)
    requires SameCore(s, c)
    ensures Agrees(Bare(s), c)
  {
    forall i | 0 <= i < |c.domains| ensures SameNet(Stripped(s.domains[i]), Stripped(c.domains[i])) {
      assert SameNet(s.domains[i], c.domains[i]);
    }
  }

  /**
   * A replica that installed the state another one had at a position agrees with a third one later, but for the
   * configuration and path ids and whatever the orders of their hash maps, exactly when no entry between is an
   * admissible registration: after the first such entry it never agrees again.
   */
  lemma AgreesUntilAdmission(config: seq<NetConfig>, s: Core, c: Core, log: seq<Entry>, m: nat, n: nat, o: seq<Orders>,
      p: seq<Orders>)
    requires CoreOk(s) && Configured(s, config) && PubkeysApart(s.domains) && CoreOk(c) && SameCore(s, c)
    requires m <= n <= |log| && n <= |o| && n <= |p| && ReplayListed(c, log, m, n, o)
    requires Install(config, s).Restored? ==> ReplayListed(Install(config, s).core, log, m, n, p)
    ensures Install(config, s).Restored?
    ensures Agrees(Replay(Install(config, s).core, log, m, n, p), Replay(c, log, m, n, o))
       <==> AdmissionsIn(c, log, m, n, o) == 0
  {
    Installed(s, config);
    BareSame(s, c);
    AgreesKeyless(Bare(s), c);
    if AdmissionsIn(c, log, m, n, o) == 0 {
      ReplayAgrees(Bare(s), c, log, m, n, o, p);
    } else {
      NextReplay(c, log, m, n, o);
      KeylessReplay(Bare(s), log, m, n, p);
    }
  }

  // ----- one log, three replicas -----

  lemma {:induction false} FoldReplay(config: seq<NetConfig>, log: seq<Entry>, m: nat, n: nat, orders: seq<Orders>,
      c: Core)
    requires m <= n <= |log| && n <= |orders| && AllListed(config, log, n, orders) && c == Fold(config, log, m, orders)
    ensures Replay(c, log, m, n, orders) == Fold(config, log, n, orders) && ReplayListed(c, log, m, n, orders)
    decreases n
  {
    if n > m { FoldReplay(config, log, m, n - 1, orders, c); }
  }

  lemma {:induction false} ListedFront(config: seq<NetConfig>, log: seq<Entry>, m: nat, n: nat, orders: seq<Orders>)
    requires m <= n <= |log| && n <= |orders| && AllListed(config, log, n, orders)
    ensures AllListed(config, log, m, orders)
    decreases n
  {
    if n > m { ListedFront(config, log, m, n - 1, orders); }
  }

  /**
   * Of three replicas of one log, each with its own orders, the first hands its state at entry m to the second, which
   * then replays up to n: it agrees with the third exactly when the log admits nobody between m and n.
   */
  lemma SnapshotAgrees(config: seq<NetConfig>, log: seq<Entry>, m: nat, n: nat, sent: seq<Orders>, mine: seq<Orders>,
      theirs: seq<Orders>, c: Core, x: Core)
    requires ConfigOk(config) && m <= n <= |log| && m <= |sent| && n <= |mine| && n <= |theirs|
    requires AllListed(config, log, m, sent) && AllListed(config, log, n, theirs)
    requires Install(config, Fold(config, log, m, sent)) == Restored(x) && ReplayListed(x, log, m, n, mine)
    requires c == Fold(config, log, m, theirs)
    ensures Agrees(Replay(x, log, m, n, mine), Fold(config, log, n, theirs)) <==>
            AdmissionsIn(c, log, m, n, theirs) == 0
  {
    var s := Fold(config, log, m, sent);
    FoldOk(config, log, m, sent);
    FoldOk(config, log, m, theirs);
    AcceptedExactly(s, config);
    ListedFront(config, log, m, n, theirs);
    ReplicasAgree(config, log, m, sent, theirs);
    FoldReplay(config, log, m, n, theirs, c);
    AgreesUntilAdmission(config, s, c, log, m, n, theirs, mine);
  }
}
