/** The shape of stored paths in every network, over whole logs of coordinator commands. */
module CoordPaths {
  import opened Registries
  import opened CoordCore
  import opened Persistence
  import opened Machine
  import I = PathIds
  import K = KeyRotation
  import N = NetworkDomain
  import P = PathModel
  import S = PathShape

  /** The hash-map orders are real listings. */
  ghost predicate Listed(c: Core, cmd: Command, orders: Orders) {
    match cmd
    case Revoke(node, now) =>
      var i := FindNode(FlushAll(c.domains, now), node);
      i < |c.domains| ==> N.Enabled(c.domains[i].table, N.Revoke(node, orders.pass))
    case SetRelayRoster(id, roster, now) =>
      var i := FindId(c.domains, id);
      i < |c.domains| ==> N.Enabled(c.domains[i].table, N.ApplyRoster(roster, orders.drops, orders.pass, now))
    case _ => true
  }

  /** Moreover a roster given to a network names nobody twice. */
  ghost predicate Fits(c: Core, cmd: Command, orders: Orders) {
    && Listed(c, cmd, orders)
    && (cmd.SetRelayRoster? && FindId(c.domains, cmd.network) < |c.domains| ==> S.NoDuplicates(cmd.roster))
  }

  ghost predicate PathsOk(ds: seq<Domain>) {
    forall i :: 0 <= i < |ds| ==> N.DomainOk(ds[i].table)
  }

  lemma StepTable(t: P.Table, op: N.DomainOp)
    requires N.DomainOk(t) && N.Enabled(t, op) && N.DuplicateFree(op)
    ensures N.DomainOk(PathStep(t, op))
  {
    N.DomainStep(t, op);
  }

  lemma ReplaceTable(ds: seq<Domain>, i: nat, d: Domain)
    requires PathsOk(ds) && i < |ds| && N.DomainOk(d.table)
    ensures PathsOk(ds[i := d])
  {}

  lemma FlushPaths(ds: seq<Domain>, now: nat)
    requires PathsOk(ds)
    ensures PathsOk(FlushAll(ds, now))
  {
    forall i | 0 <= i < |ds| ensures N.DomainOk(FlushAll(ds, now)[i].table) { assert N.DomainOk(ds[i].table); }
  }

  lemma RevokePaths(c: Core, node: NodeId, now: nat, anchor: Anchor, orders: Orders)
    requires PathsOk(c.domains) && Fits(c, Command.Revoke(node, now), orders)
    ensures PathsOk(RevokeNode(c, node, now, anchor, orders).domains)
  {
    var ds := FlushAll(c.domains, now);
    var i := FindNode(ds, node);
    FlushPaths(c.domains, now);
    if i < |ds| {
      assert N.DomainOk(c.domains[i].table) && ds[i].table == c.domains[i].table;
      StepTable(c.domains[i].table, N.Revoke(node, orders.pass));
      ReplaceTable(ds, i, DropNode(ds[i], node, now, orders.pass));
    }
  }

  lemma UpdatePaths(c: Core, i: nat, op: N.DomainOp)
    requires PathsOk(c.domains) && i < |c.domains| && N.Enabled(c.domains[i].table, op) && N.DuplicateFree(op)
    ensures PathsOk(UpdateTable(c, i, op).domains)
  {
    assert N.DomainOk(c.domains[i].table);
    StepTable(c.domains[i].table, op);
    ReplaceTable(c.domains, i, UpdateTable(c, i, op).domains[i]);
  }

  lemma RequestPathsOk(c: Core, source: NodeId, dest: NodeId, max: nat, now: nat)
    requires PathsOk(c.domains)
    ensures PathsOk(RequestNodePaths(c, source, dest, max, now).domains)
  {
    var x := RequestNodePaths(c, source, dest, max, now);
    if x != c {
      var i := FindId(c.domains, c.domains[DomainOf(c.domains, source)].registry.networkId);
      UpdatePaths(c, i, N.RequestPaths(P.Pair(source, dest), max, now));
    }
  }

  lemma RegisterPaths(c: Core, cmd: Command, anchor: Anchor)
    requires PathsOk(c.domains) && cmd.Register?
    ensures PathsOk(RegisterNode(c, cmd, anchor).core.domains)
  {
    var ds := RegisterNode(c, cmd, anchor).core.domains;
    assert forall i :: 0 <= i < |ds| ==> ds[i].table == c.domains[i].table;
  }

  lemma CommandPaths(c: Core, cmd: Command, anchor: Anchor, orders: Orders)
    requires PathsOk(c.domains) && Fits(c, cmd, orders)
    ensures PathsOk(ApplyCommand(c, cmd, anchor, orders).domains)
  {
    match cmd
    case Register(_, _, _, _, _) => RegisterPaths(c, cmd, anchor);
    case Revoke(node, now) => RevokePaths(c, node, now, anchor, orders);
    case SetEndpoints(_, _, _) =>
    case RequestPaths(source, dest, max, now) => RequestPathsOk(c, source, dest, max, now);
    case SetRelayRoster(id, roster, now) =>
      if FindId(c.domains, id) < |c.domains| {
        UpdatePaths(c, FindId(c.domains, id), N.ApplyRoster(roster, orders.drops, orders.pass, now));
      }
    case RotateMasterKey(name) =>
      var i := FindName(c.domains, name);
      if i < |c.domains| {
        assert N.DomainOk(c.domains[i].table);
        ReplaceTable(c.domains, i, c.domains[i].(keys := K.Rotate(c.domains[i].keys)));
      }
    case FlushRevokeRotations(now) => FlushPaths(c.domains, now);
  }

  /** Every command of the log met orders that fit. */
  ghost predicate AllFit(config: seq<NetConfig>, log: seq<Entry>, n: nat, orders: seq<Orders>)
    requires n <= |log| && n <= |orders|
  {
    n == 0 ||
    (AllFit(config, log, n - 1, orders) &&
     (log[n - 1].payload.Normal? ==> Fits(Fold(config, log, n - 1, orders), log[n - 1].payload.cmd, orders[n - 1])))
  }

  lemma {:induction false} FoldPaths(config: seq<NetConfig>, log: seq<Entry>, n: nat, orders: seq<Orders>)
    requires n <= |log| && n <= |orders| && AllFit(config, log, n, orders)
    ensures PathsOk(Fold(config, log, n, orders).domains)
  {
    if n == 0 {
      StartPaths(config);
    } else {
      FoldPaths(config, log, n - 1, orders);
      if log[n - 1].payload.Normal? {
        CommandPaths(Fold(config, log, n - 1, orders), log[n - 1].payload.cmd, Anchor(n - 1, log[n - 1].term),
            orders[n - 1]);
      }
    }
  }

  lemma StartPaths(config: seq<NetConfig>)
    ensures PathsOk(Configure(Fresh(config), config).domains)
  {
    var ds := Configure(Fresh(config), config).domains;
    forall i | 0 <= i < |ds| ensures N.DomainOk(ds[i].table) {
      assert ds[i].table == P.Table(map[], 0, []);
      N.RunOk([], []);
    }
  }

  /** After every log of commands with duplicate-free rosters, every stored set of every network is one direct candidate
      followed by distinct relays of the current roster, within its budget, and ids do not repeat. */
  lemma PathsWellFormed(config: seq<NetConfig>, log: seq<Entry>, n: nat, orders: seq<Orders>, i: nat, p: P.Pair)
    requires n <= |log| && n <= |orders| && AllFit(config, log, n, orders)
    requires var ds := Fold(config, log, n, orders).domains; i < |ds| && p in ds[i].table.sets
    ensures var t := Fold(config, log, n, orders).domains[i].table;
            I.IdsOk(t) && N.WellFormed(t.sets[p], p, t.relays)
  {
    FoldPaths(config, log, n, orders);
    var t := Fold(config, log, n, orders).domains[i].table;
    assert N.DomainOk(t);
    N.ShapedWellFormed(t.sets[p].candidates, p, t.relays);
  }
}
