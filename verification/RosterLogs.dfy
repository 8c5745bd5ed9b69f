/**
 * Rosters over whole logs: who proposed them, when, and whether the relays of stored paths are members of the network.
 */
module RosterLogs {
  import opened Bytes
  import opened Prefixes
  import opened Registries
  import opened CoordCore
  import opened Persistence
  import opened Recovery
  import opened Machine
  import opened CoordPaths
  import opened Replicas
  import Audit
  import I = PathIds
  import M = PathMirror
  import N = NetworkDomain
  import O = PathOrder
  import P = PathModel
  import R = PathReplay
  import S = PathShape
  import V = RelayRoster

  const CAPABILITY_RELAY: nat := 0x01

  predicate CanRelay(r: Registry, n: NodeId) {
    n in r.entries && HasCapability(r.entries[n].capabilities, CAPABILITY_RELAY)
  }

  /** Every relay of the roster is registered in the network and willing. */
  ghost predicate Serves(d: Domain) {
    forall n :: n in d.table.relays ==> CanRelay(d.registry, n)
  }

  ghost predicate AllServe(ds: seq<Domain>) {
    forall i :: 0 <= i < |ds| ==> Serves(ds[i])
  }

  // ----- which relays a step leaves -----

  lemma RequestRelays(t: P.Table, pair: P.Pair, max: nat, now: nat)
    ensures PathStep(t, N.RequestPaths(pair, max, now)).relays == t.relays
  {
    N.OneCall(t, M.RequestOp(pair, max, now));
  }

  lemma RevokeRelays(t: P.Table, node: NodeId, order: seq<P.Pair>)
    ensures forall n :: n in PathStep(t, N.Revoke(node, order)).relays <==> n in t.relays && n != node
  {
    N.RevokeRuns(t, node, order);
    R.WithdrawNodePassed(t, node, order);
  }

  lemma RosterRelays(t: P.Table, op: N.DomainOp)
    requires op.ApplyRoster? && N.Enabled(t, op)
    ensures PathStep(t, op).relays == op.roster
  {
    R.RosterGives(t, op);
    var m := R.Narrowed(t, op.roster);
    O.ExpandPass(m, op.order, op.now);
    GoneRelays(t.(relays := op.roster), N.Dropped(t.relays, op.roster));
  }

  lemma {:induction false} GoneRelays(t: P.Table, dropped: seq<NodeId>)
    ensures R.AllGone(t, dropped).relays == t.relays
  {
    if dropped != [] { GoneRelays(t, dropped[..|dropped| - 1]); }
  }

  // ----- the commands -----

  lemma ServesOn(d: Domain, e: Domain)
    requires Serves(d) && d.registry.entries == e.registry.entries && d.table.relays == e.table.relays
    ensures Serves(e)
  {}

  lemma ReplaceServes(ds: seq<Domain>, i: nat, d: Domain)
    requires AllServe(ds) && i < |ds|
    ensures AllServe(ds[i := d]) <==> Serves(d)
  {
    assert ds[i := d][i] == d;
  }

  lemma RegisterServes(c: Core, cmd: Command, anchor: Anchor)
    requires CoreOk(c) && AllServe(c.domains) && cmd.Register?
    ensures AllServe(RegisterNode(c, cmd, anchor).core.domains)
  {
    var i := RegisterShape(c, cmd, anchor);
    var x := RegisterNode(c, cmd, anchor);
    if x.reply.Admitted? {
      assert Serves(c.domains[i]);
      ReplaceServes(c.domains, i, x.core.domains[i]);
    }
  }

  lemma FlushServes(ds: seq<Domain>, now: nat)
    requires AllServe(ds)
    ensures AllServe(FlushAll(ds, now))
  {
    forall i | 0 <= i < |ds| ensures Serves(FlushAll(ds, now)[i]) { ServesOn(ds[i], FlushAll(ds, now)[i]); }
  }

  lemma DropServes(d: Domain, node: NodeId, now: nat, pass: seq<P.Pair>)
    requires Serves(d)
    ensures Serves(DropNode(d, node, now, pass))
  {
    RevokeRelays(d.table, node, pass);
  }

  lemma RevokeServes(c: Core, node: NodeId, now: nat, anchor: Anchor, orders: Orders)
    requires AllServe(c.domains)
    ensures AllServe(RevokeNode(c, node, now, anchor, orders).domains)
  {
    var ds := FlushAll(c.domains, now);
    FlushServes(c.domains, now);
    var i := FindNode(ds, node);
    if i < |ds| {
      var d := DropNode(ds[i], node, now, orders.pass);
      RevokeIs(c, node, now, anchor, orders, ds, i, d);
      DropServes(ds[i], node, now, orders.pass);
      ReplaceServes(ds, i, d);
    }
  }

  lemma RequestServes(c: Core, source: NodeId, dest: NodeId, max: nat, now: nat)
    requires AllServe(c.domains)
    ensures AllServe(RequestNodePaths(c, source, dest, max, now).domains)
  {
    var x := RequestNodePaths(c, source, dest, max, now);
    if x != c {
      var i := FindId(c.domains, c.domains[DomainOf(c.domains, source)].registry.networkId);
      RequestRelays(c.domains[i].table, P.Pair(source, dest), max, now);
      ServesOn(c.domains[i], x.domains[i]);
      ReplaceServes(c.domains, i, x.domains[i]);
    }
  }

  lemma RotateServes(c: Core, name: string, anchor: Anchor, orders: Orders)
    requires AllServe(c.domains)
    ensures AllServe(ApplyCommand(c, RotateMasterKey(name), anchor, orders).domains)
  {
    var x := ApplyCommand(c, RotateMasterKey(name), anchor, orders);
    var i := FindName(c.domains, name);
    if i < |c.domains| {
      ServesOn(c.domains[i], x.domains[i]);
      ReplaceServes(c.domains, i, x.domains[i]);
    }
  }

  lemma CommandServes(c: Core, cmd: Command, anchor: Anchor, orders: Orders)
    requires CoreOk(c) && AllServe(c.domains) && !cmd.SetRelayRoster?
    ensures AllServe(ApplyCommand(c, cmd, anchor, orders).domains)
  {
    match cmd
    case Register(_, _, _, _, _) => RegisterServes(c, cmd, anchor);
    case Revoke(node, now) => RevokeServes(c, node, now, anchor, orders);
    case SetEndpoints(_, _, _) =>
    case RequestPaths(source, dest, max, now) => RequestServes(c, source, dest, max, now);
    case RotateMasterKey(name) => RotateServes(c, name, anchor, orders);
    case FlushRevokeRotations(now) => FlushServes(c.domains, now);
  }

  /** A roster change keeps the property exactly when all it names are registered in the network and willing. */
  lemma RosterServesExactly(c: Core, cmd: Command, anchor: Anchor, orders: Orders, i: nat)
    requires AllServe(c.domains) && cmd.SetRelayRoster? && Listed(c, cmd, orders)
    requires i == FindId(c.domains, cmd.network) && i < |c.domains|
    ensures AllServe(ApplyCommand(c, cmd, anchor, orders).domains)
       <==> forall n :: n in cmd.roster ==> CanRelay(c.domains[i].registry, n)
  {
    var x := ApplyCommand(c, cmd, anchor, orders);
    RosterRelays(c.domains[i].table, N.ApplyRoster(cmd.roster, orders.drops, orders.pass, cmd.now));
    ReplaceServes(c.domains, i, x.domains[i]);
  }

  // ----- proposals -----

  /** The view has the capabilities right. */
  ghost predicate Knows(v: V.View, r: Registry) {
    forall n :: n in r.entries ==> (n in v.capable <==> CanRelay(r, n))
  }

  ghost predicate ProposedFor(r: Registry, roster: seq<NodeId>) {
    exists v :: Knows(v, r) && V.IsProposal(v, r.entries.Keys, roster)
  }

  /** The roster is what someone holding this core would propose for the network. */
  ghost predicate ProposedIn(c: Core, cmd: Command)
    requires cmd.SetRelayRoster?
  {
    var i := FindId(c.domains, cmd.network);
    i < |c.domains| ==> ProposedFor(c.domains[i].registry, cmd.roster)
  }

  lemma ProposalServes(c: Core, cmd: Command, i: nat)
    requires cmd.SetRelayRoster? && ProposedIn(c, cmd) && i == FindId(c.domains, cmd.network) && i < |c.domains|
    ensures forall n :: n in cmd.roster ==> CanRelay(c.domains[i].registry, n)
    ensures S.NoDuplicates(cmd.roster)
  {
    var v :| Knows(v, c.domains[i].registry) && V.IsProposal(v, c.domains[i].registry.entries.Keys, cmd.roster);
    V.OrderedDistinct(v, cmd.roster);
  }

  ghost predicate IsRoster(e: Entry) {
    e.payload.Normal? && e.payload.cmd.SetRelayRoster?
  }

  /** Entry j, if a roster, was proposed from the state at j or before. */
  ghost predicate ProposedBy(config: seq<NetConfig>, log: seq<Entry>, j: nat, orders: seq<Orders>)
    requires j < |log| && j <= |orders|
  {
    IsRoster(log[j]) ==> exists k :: 0 <= k <= j && ProposedIn(Fold(config, log, k, orders), log[j].payload.cmd)
  }

  /** Every roster of the log was proposed from the state at its own position or an earlier one. */
  ghost predicate AllProposed(config: seq<NetConfig>, log: seq<Entry>, n: nat, orders: seq<Orders>)
    requires n <= |log| && n <= |orders|
  {
    forall j :: 0 <= j < n ==> ProposedBy(config, log, j, orders)
  }

  /** None of the nodes it names was revoked by then. */
  ghost predicate Current(c: Core, e: Entry) {
    IsRoster(e) && FindId(c.domains, e.payload.cmd.network) < |c.domains| ==>
      forall n :: n in e.payload.cmd.roster ==> n !in c.revoked
  }

  ghost predicate AllCurrent(config: seq<NetConfig>, log: seq<Entry>, n: nat, orders: seq<Orders>)
    requires n <= |log| && n <= |orders|
  {
    n == 0 || (AllCurrent(config, log, n - 1, orders) && Current(Fold(config, log, n - 1, orders), log[n - 1]))
  }

  lemma SamePlace(config: seq<NetConfig>, log: seq<Entry>, k: nat, j: nat, orders: seq<Orders>, id: u32, c: Core,
      d: Core)
    requires ConfigOk(config) && k <= j <= |log| && j <= |orders|
    requires c == Fold(config, log, k, orders) && d == Fold(config, log, j, orders)
    ensures |c.domains| == |d.domains| && FindId(c.domains, id) == FindId(d.domains, id)
  {
    FoldOk(config, log, k, orders);
    FoldOk(config, log, j, orders);
    forall i | 0 <= i < |config| ensures c.domains[i].registry.networkId == d.domains[i].registry.networkId {
      assert ConfiguredNet(c.domains[i], config[i]) && ConfiguredNet(d.domains[i], config[i]);
    }
  }

  /** A member stays a member of its network, with its capabilities, until it is revoked. */
  lemma StillThere(c: Core, d: Core, i: nat, n: NodeId, m: nat)
    requires CoreOk(c) && CoreOk(d) && i < |c.domains| == |d.domains|
    requires c.domains[i].registry.networkId == d.domains[i].registry.networkId
    requires n in c.domains[i].registry.entries && Audit.Lived(c, d, m, n)
    ensures n in d.revoked ==> n !in d.domains[i].registry.entries
    ensures n !in d.revoked ==> n in d.domains[i].registry.entries
    ensures n !in d.revoked ==> d.domains[i].registry.entries[n] == c.domains[i].registry.entries[n]
  {
    Audit.LookupIs(c, i, n);
    var j := Audit.Found(d, n);
    if n !in d.revoked {
      assert RegistryOk(c.domains[i].registry, c.nextNodeId) && RegistryOk(d.domains[j].registry, d.nextNodeId);
      assert d.domains[j].registry.networkId == d.domains[i].registry.networkId;
    }
  }

  /** A roster proposed at k and applied at j fits the network exactly when nobody on it was revoked between. */
  lemma ProposedFitsExactly(config: seq<NetConfig>, log: seq<Entry>, k: nat, j: nat, orders: seq<Orders>, cmd: Command,
      i: nat, c: Core, d: Core)
    requires ConfigOk(config) && k <= j <= |log| && j <= |orders|
    requires c == Fold(config, log, k, orders) && d == Fold(config, log, j, orders)
    requires cmd.SetRelayRoster? && ProposedIn(c, cmd) && i == FindId(d.domains, cmd.network) && i < |d.domains|
    ensures (forall n :: n in cmd.roster ==> CanRelay(d.domains[i].registry, n))
       <==> forall n :: n in cmd.roster ==> n !in d.revoked
  {
    SamePlace(config, log, k, j, orders, cmd.network, c, d);
    FoldOk(config, log, k, orders);
    FoldOk(config, log, j, orders);
    ProposalServes(c, cmd, i);
    forall n | n in cmd.roster ensures CanRelay(d.domains[i].registry, n) <==> n !in d.revoked {
      Audit.FoldLived(config, log, k, j, orders, n, c, d);
      StillThere(c, d, i, n, k);
    }
  }

  lemma RosterEntryServes(config: seq<NetConfig>, log: seq<Entry>, j: nat, orders: seq<Orders>, d: Core, cmd: Command,
      anchor: Anchor, o: Orders)
    requires ConfigOk(config) && j < |log| && j <= |orders| && d == Fold(config, log, j, orders) && AllServe(d.domains)
    requires log[j].payload == Normal(cmd) && cmd.SetRelayRoster? && Listed(d, cmd, o)
    requires ProposedBy(config, log, j, orders)
    ensures AllServe(ApplyCommand(d, cmd, anchor, o).domains) <==> Current(d, log[j])
  {
    var i := FindId(d.domains, cmd.network);
    if i < |d.domains| {
      var k :| 0 <= k <= j && ProposedIn(Fold(config, log, k, orders), cmd);
      ProposedFitsExactly(config, log, k, j, orders, cmd, i, Fold(config, log, k, orders), d);
      RosterServesExactly(d, cmd, anchor, o, i);
    }
  }

  lemma EntryServesExactly(config: seq<NetConfig>, log: seq<Entry>, j: nat, orders: seq<Orders>, o: Orders, d: Core,
      e: Entry)
    requires ConfigOk(config) && j < |log| && j <= |orders| && d == Fold(config, log, j, orders) && e == log[j]
    requires AllServe(d.domains) && ListedEntry(d, e, o) && ProposedBy(config, log, j, orders)
    ensures AllServe(ApplyEntry(d, e, j, o).domains) <==> Current(d, e)
  {
    FoldOk(config, log, j, orders);
    if IsRoster(e) {
      RosterEntryServes(config, log, j, orders, d, e.payload.cmd, Anchor(j, e.term), o);
    } else if e.payload.Normal? {
      CommandServes(d, e.payload.cmd, Anchor(j, e.term), o);
    }
  }

  lemma StartServes(config: seq<NetConfig>)
    ensures AllServe(Configure(Fresh(config), config).domains)
  {}

  /** All rosters are served at every position up to n. */
  ghost predicate AlwaysServed(config: seq<NetConfig>, log: seq<Entry>, n: nat, orders: seq<Orders>)
    requires n <= |log| && n <= |orders|
  {
    AllServe(Fold(config, log, n, orders).domains) && (n == 0 || AlwaysServed(config, log, n - 1, orders))
  }

  /**
   * In a log whose rosters were proposed from earlier states of it, every roster in force names registered relays of
   * its network at all positions exactly when no roster names a node that was revoked by the time it is applied.
   */
  lemma {:induction false} RostersServeExactly(config: seq<NetConfig>, log: seq<Entry>, n: nat, orders: seq<Orders>)
    requires ConfigOk(config) && n <= |log| && n <= |orders|
    requires AllListed(config, log, n, orders) && AllProposed(config, log, n, orders)
    ensures AlwaysServed(config, log, n, orders) <==> AllCurrent(config, log, n, orders)
  {
    if n == 0 {
      StartServes(config);
    } else {
      RostersServeExactly(config, log, n - 1, orders);
      var d := Fold(config, log, n - 1, orders);
      assert ProposedBy(config, log, n - 1, orders);
      if AlwaysServed(config, log, n - 1, orders) {
        EntryServesExactly(config, log, n - 1, orders, orders[n - 1], d, log[n - 1]);
      }
    }
  }

  // ----- stored paths -----

  lemma {:induction false} ProposedFit(config: seq<NetConfig>, log: seq<Entry>, n: nat, orders: seq<Orders>)
    requires n <= |log| && n <= |orders| && ConfigOk(config)
    requires AllListed(config, log, n, orders) && AllProposed(config, log, n, orders)
    ensures AllFit(config, log, n, orders)
  {
    if n > 0 {
      ProposedFit(config, log, n - 1, orders);
      if IsRoster(log[n - 1]) { RosterFits(config, log, n - 1, orders, Fold(config, log, n - 1, orders)); }
    }
  }

  lemma RosterFits(config: seq<NetConfig>, log: seq<Entry>, j: nat, orders: seq<Orders>, d: Core)
    requires ConfigOk(config) && j < |log| && j < |orders| && IsRoster(log[j]) && d == Fold(config, log, j, orders)
    requires ProposedBy(config, log, j, orders)
    requires ListedEntry(d, log[j], orders[j])
    ensures Fits(d, log[j].payload.cmd, orders[j])
  {
    var cmd := log[j].payload.cmd;
    var k :| 0 <= k <= j && ProposedIn(Fold(config, log, k, orders), cmd);
    var c := Fold(config, log, k, orders);
    SamePlace(config, log, k, j, orders, cmd.network, c, d);
    var i := FindId(c.domains, cmd.network);
    if i < |c.domains| { ProposalServes(c, cmd, i); }
  }

  /**
   * After every log whose rosters were proposed from its own states and name nobody revoked meanwhile, each stored set
   * of each network is a direct path followed by paths through different registered relays of that very network.
   */
  lemma ProposedPathsServe(config: seq<NetConfig>, log: seq<Entry>, n: nat, orders: seq<Orders>, i: nat, p: P.Pair)
    requires ConfigOk(config) && n <= |log| && n <= |orders| && AllListed(config, log, n, orders)
    requires AllProposed(config, log, n, orders) && AllCurrent(config, log, n, orders)
    requires var ds := Fold(config, log, n, orders).domains; i < |ds| && p in ds[i].table.sets
    ensures var d := Fold(config, log, n, orders).domains[i];
            && I.IdsOk(d.table) && N.WellFormed(d.table.sets[p], p, d.table.relays)
            && forall h :: 1 <= h < |d.table.sets[p].candidates| ==>
                 CanRelay(d.registry, d.table.sets[p].candidates[h].hops[0])
  {
    RostersServeExactly(config, log, n, orders);
    ProposedFit(config, log, n, orders);
    PathsWellFormed(config, log, n, orders, i, p);
    assert Serves(Fold(config, log, n, orders).domains[i]);
  }
}
