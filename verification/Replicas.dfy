/**
 * Replicas of one log, each with hash maps of its own: they agree on everything but path ids, and on those exactly
 * while no roster change gives new ones to two pairs.
 */
module Replicas {
  import opened Bytes
  import opened Registries
  import opened CoordCore
  import opened Persistence
  import opened Machine
  import opened CoordPaths
  import opened PathReplay
  import A = AuthKey
  import D = PathDivergence
  import K = KeyRotation
  import KeyDrift
  import M = PathMirror
  import N = NetworkDomain
  import P = PathModel
  import R = ReplicaRuns

  // ----- agreement -----

  ghost predicate SameNet(d: Domain, e: Domain) {
    d.(table := e.table) == e && SameTable(d.table, e.table)
  }

  ghost predicate SameAll(ds: seq<Domain>, es: seq<Domain>) {
    |ds| == |es| && forall i :: 0 <= i < |ds| ==> SameNet(ds[i], es[i])
  }

  /** Equal up to path ids, with the same id counters. */
  ghost predicate SameCore(a: Core, b: Core) {
    SameAll(a.domains, b.domains) && a.(domains := b.domains) == b
  }

  lemma SameRefl(c: Core)
    ensures SameCore(c, c)
  {}

  lemma SameTrans(a: Core, b: Core, c: Core)
    requires SameCore(a, b) && SameCore(b, c)
    ensures SameCore(a, c)
  {
    forall i | 0 <= i < |a.domains| ensures SameNet(a.domains[i], c.domains[i]) {
      var r, s, t := a.domains[i].table, b.domains[i].table, c.domains[i].table;
      assert SameNet(a.domains[i], b.domains[i]) && SameNet(b.domains[i], c.domains[i]);
      TableTrans(r, s, t);
      NetTrans(a.domains[i], b.domains[i], c.domains[i]);
    }
  }

  lemma TableTrans(r: P.Table, s: P.Table, t: P.Table)
    requires SameTable(r, s) && SameTable(s, t)
    ensures SameTable(r, t)
  {}

  lemma NetTrans(d: Domain, e: Domain, f: Domain)
    requires d.(table := e.table) == e && e.(table := f.table) == f
    ensures d.(table := f.table) == f
  {
    assert d.(table := e.table).(table := f.table) == f;
  }

  lemma SameAligned(ds: seq<Domain>, es: seq<Domain>)
    requires SameAll(ds, es)
    ensures KeyDrift.Aligned(ds, es)
  {
    forall i | 0 <= i < |ds| ensures ds[i].name == es[i].name && ds[i].registry == es[i].registry
        && ds[i].aclEnabled == es[i].aclEnabled {
      assert SameNet(ds[i], es[i]);
    }
  }

  lemma SameFind(ds: seq<Domain>, es: seq<Domain>, name: string, id: u32, node: NodeId)
    requires SameAll(ds, es)
    ensures FindName(ds, name) == FindName(es, name) && FindId(ds, id) == FindId(es, id)
    ensures FindNode(ds, node) == FindNode(es, node)
  {
    SameAligned(ds, es);
    KeyDrift.AlignedFinds(ds, es, name, id, node);
  }

  lemma SameHomes(ds: seq<Domain>, es: seq<Domain>, node: NodeId)
    requires SameAll(ds, es)
    ensures DomainOf(ds, node) == DomainOf(es, node)
  {
    SameAligned(ds, es);
    KeyDrift.AlignedHome(ds, es, node);
  }

  lemma SameUpdate(ds: seq<Domain>, es: seq<Domain>, i: nat, d: Domain, e: Domain)
    requires SameAll(ds, es) && i < |ds| && SameNet(d, e)
    ensures SameAll(ds[i := d], es[i := e])
  {}

  // ----- the commands -----

  lemma RegistrySame(d: Domain, e: Domain, r: Registry)
    requires SameNet(d, e)
    ensures SameNet(d.(registry := r), e.(registry := r))
  {}

  lemma RegisterSame(a: Core, b: Core, cmd: Command, anchor: Anchor)
    requires SameCore(a, b) && cmd.Register?
    ensures SameCore(RegisterNode(a, cmd, anchor).core, RegisterNode(b, cmd, anchor).core)
  {
    SameAligned(a.domains, b.domains);
    KeyDrift.AlignedReply(a, b, cmd, anchor);
    var x, y := RegisterNode(a, cmd, anchor), RegisterNode(b, cmd, anchor);
    if x.reply.Admitted? { AdmittedSame(a, b, cmd, anchor, x.core, y.core); }
  }

  lemma AdmittedSame(a: Core, b: Core, cmd: Command, anchor: Anchor, x: Core, y: Core)
    requires SameCore(a, b) && cmd.Register? && RegisterNode(a, cmd, anchor) == Registration(x, Admitted(a.nextNodeId))
    requires RegisterNode(b, cmd, anchor) == Registration(y, Admitted(b.nextNodeId))
    ensures SameCore(x, y)
  {
    var name := A.Parse(cmd.key).network;
    SameFind(a.domains, b.domains, name, 0, 0);
    var i := FindName(a.domains, name);
    KeyDrift.AdmittedIs(a, i, cmd, anchor, x);
    KeyDrift.AdmittedIs(b, i, cmd, anchor, y);
    var d, e, r := a.domains[i], b.domains[i], x.domains[i].registry;
    assert SameNet(d, e);
    RegistrySame(d, e, r);
    SameUpdate(a.domains, b.domains, i, d.(registry := r), e.(registry := r));
  }

  lemma FlushSame(ds: seq<Domain>, es: seq<Domain>, now: nat)
    requires SameAll(ds, es)
    ensures SameAll(FlushAll(ds, now), FlushAll(es, now))
  {
    var x, y := FlushAll(ds, now), FlushAll(es, now);
    forall i | 0 <= i < |ds| ensures SameNet(x[i], y[i]) {
      assert SameNet(ds[i], es[i]);
      KeysSame(ds[i], es[i], K.Take(ds[i].keys, now));
    }
  }

  lemma KeysSame(d: Domain, e: Domain, k: K.Keys)
    requires SameNet(d, e)
    ensures d.keys == e.keys && SameNet(d.(keys := k), e.(keys := k))
  {}

  lemma StepSame(s: P.Table, t: P.Table, a: N.DomainOp, b: N.DomainOp)
    requires SameTable(s, t) && SameOp(a, b) && N.Enabled(s, a) && N.Enabled(t, b)
    ensures SameTable(PathStep(s, a), PathStep(t, b))
  {
    OperationSame(s, t, a, b);
  }

  lemma DropSame(d: Domain, e: Domain, node: NodeId, now: nat, o: seq<P.Pair>, p: seq<P.Pair>)
    requires SameNet(d, e) && N.Enabled(d.table, N.Revoke(node, o)) && N.Enabled(e.table, N.Revoke(node, p))
    ensures SameNet(DropNode(d, node, now, o), DropNode(e, node, now, p))
  {
    StepSame(d.table, e.table, N.Revoke(node, o), N.Revoke(node, p));
  }

  lemma RevokeFoundSame(a: Core, b: Core, node: NodeId, now: nat, anchor: Anchor, o: Orders, p: Orders, i: nat,
      ds: seq<Domain>, es: seq<Domain>)
    requires SameCore(a, b) && ds == FlushAll(a.domains, now) && es == FlushAll(b.domains, now) && SameAll(ds, es)
    requires i == FindNode(ds, node) == FindNode(es, node) && i < |ds|
    requires N.Enabled(ds[i].table, N.Revoke(node, o.pass)) && N.Enabled(es[i].table, N.Revoke(node, p.pass))
    ensures SameCore(RevokeNode(a, node, now, anchor, o), RevokeNode(b, node, now, anchor, p))
  {
    var d, e := DropNode(ds[i], node, now, o.pass), DropNode(es[i], node, now, p.pass);
    RevokeIs(a, node, now, anchor, o, ds, i, d);
    RevokeIs(b, node, now, anchor, p, es, i, e);
    DropSame(ds[i], es[i], node, now, o.pass, p.pass);
    SameUpdate(ds, es, i, d, e);
  }

  lemma RevokeSame(a: Core, b: Core, node: NodeId, now: nat, anchor: Anchor, o: Orders, p: Orders)
    requires SameCore(a, b)
    requires Listed(a, Command.Revoke(node, now), o) && Listed(b, Command.Revoke(node, now), p)
    ensures SameCore(RevokeNode(a, node, now, anchor, o), RevokeNode(b, node, now, anchor, p))
  {
    var ds, es := FlushAll(a.domains, now), FlushAll(b.domains, now);
    FlushSame(a.domains, b.domains, now);
    SameFind(ds, es, "", 0, node);
    var i := FindNode(ds, node);
    if i < |ds| { RevokeFoundSame(a, b, node, now, anchor, o, p, i, ds, es); }
  }

  lemma UpdateSame(a: Core, b: Core, i: nat, o: N.DomainOp, p: N.DomainOp)
    requires SameCore(a, b) && i < |a.domains| && SameOp(o, p)
    requires N.Enabled(a.domains[i].table, o) && N.Enabled(b.domains[i].table, p)
    ensures SameCore(UpdateTable(a, i, o), UpdateTable(b, i, p))
  {
    assert SameNet(a.domains[i], b.domains[i]);
    StepSame(a.domains[i].table, b.domains[i].table, o, p);
    SameUpdate(a.domains, b.domains, i, UpdateTable(a, i, o).domains[i], UpdateTable(b, i, p).domains[i]);
  }

  lemma RequestSameCore(a: Core, b: Core, source: NodeId, dest: NodeId, max: nat, now: nat)
    requires SameCore(a, b)
    ensures SameCore(RequestNodePaths(a, source, dest, max, now), RequestNodePaths(b, source, dest, max, now))
  {
    SameHomes(a.domains, b.domains, source);
    SameHomes(a.domains, b.domains, dest);
    var i, j := DomainOf(a.domains, source), DomainOf(a.domains, dest);
    if i < |a.domains| && j < |a.domains| {
      assert SameNet(a.domains[i], b.domains[i]) && SameNet(a.domains[j], b.domains[j]);
      var id := a.domains[i].registry.networkId;
      SameFind(a.domains, b.domains, "", id, 0);
      if id == a.domains[j].registry.networkId {
        var op := N.RequestPaths(P.Pair(source, dest), max, now);
        UpdateSame(a, b, FindId(a.domains, id), op, op);
      }
    }
  }

  lemma RotateSame(a: Core, b: Core, name: string, anchor: Anchor, o: Orders, p: Orders)
    requires SameCore(a, b)
    ensures SameCore(ApplyCommand(a, RotateMasterKey(name), anchor, o),
            ApplyCommand(b, RotateMasterKey(name), anchor, p))
  {
    SameFind(a.domains, b.domains, name, 0, 0);
    var i := FindName(a.domains, name);
    if i < |a.domains| {
      var d, e := a.domains[i], b.domains[i];
      assert SameNet(d, e);
      KeysSame(d, e, K.Rotate(d.keys));
      SameUpdate(a.domains, b.domains, i, d.(keys := K.Rotate(d.keys)), e.(keys := K.Rotate(e.keys)));
    }
  }

  lemma RosterSameCore(a: Core, b: Core, cmd: Command, anchor: Anchor, o: Orders, p: Orders)
    requires SameCore(a, b) && cmd.SetRelayRoster? && Listed(a, cmd, o) && Listed(b, cmd, p)
    ensures SameCore(ApplyCommand(a, cmd, anchor, o), ApplyCommand(b, cmd, anchor, p))
  {
    SameFind(a.domains, b.domains, "", cmd.network, 0);
    var i := FindId(a.domains, cmd.network);
    if i < |a.domains| {
      UpdateSame(a, b, i, N.ApplyRoster(cmd.roster, o.drops, o.pass, cmd.now),
          N.ApplyRoster(cmd.roster, p.drops, p.pass, cmd.now));
    }
  }

  /** One command keeps two cores in agreement, whatever the orders of their hash maps. */
  lemma CommandSame(a: Core, b: Core, cmd: Command, anchor: Anchor, o: Orders, p: Orders)
    requires SameCore(a, b) && Listed(a, cmd, o) && Listed(b, cmd, p)
    ensures SameCore(ApplyCommand(a, cmd, anchor, o), ApplyCommand(b, cmd, anchor, p))
  {
    match cmd
    case Register(_, _, _, _, _) => RegisterSame(a, b, cmd, anchor);
    case Revoke(node, now) => RevokeSame(a, b, node, now, anchor, o, p);
    case SetEndpoints(_, _, _) =>
    case RequestPaths(source, dest, max, now) => RequestSameCore(a, b, source, dest, max, now);
    case SetRelayRoster(_, _, _) => RosterSameCore(a, b, cmd, anchor, o, p);
    case RotateMasterKey(name) => RotateSame(a, b, name, anchor, o, p);
    case FlushRevokeRotations(now) => FlushSame(a.domains, b.domains, now);
  }

  // ----- whole logs -----

  ghost predicate ListedEntry(c: Core, e: Entry, orders: Orders) {
    e.payload.Normal? ==> Listed(c, e.payload.cmd, orders)
  }

  /** Every command of the log met real listings. */
  ghost predicate AllListed(config: seq<NetConfig>, log: seq<Entry>, n: nat, orders: seq<Orders>)
    requires n <= |log| && n <= |orders|
  {
    n == 0 ||
    (AllListed(config, log, n - 1, orders) && ListedEntry(Fold(config, log, n - 1, orders), log[n - 1], orders[n - 1]))
  }

  lemma EntrySame(a: Core, b: Core, e: Entry, index: nat, o: Orders, p: Orders)
    requires SameCore(a, b) && ListedEntry(a, e, o) && ListedEntry(b, e, p)
    ensures SameCore(ApplyEntry(a, e, index, o), ApplyEntry(b, e, index, p))
  {
    if e.payload.Normal? { CommandSame(a, b, e.payload.cmd, Anchor(index, e.term), o, p); }
  }

  /** Any two replicas that applied the same entries agree on all but path ids. */
  lemma {:induction false} ReplicasAgree(config: seq<NetConfig>, log: seq<Entry>, n: nat, a: seq<Orders>,
      b: seq<Orders>)
    requires n <= |log| && n <= |a| && n <= |b| && AllListed(config, log, n, a) && AllListed(config, log, n, b)
    ensures SameCore(Fold(config, log, n, a), Fold(config, log, n, b))
  {
    if n == 0 {
      SameRefl(Configure(Fresh(config), config));
    } else {
      ReplicasAgree(config, log, n - 1, a, b);
      EntrySame(Fold(config, log, n - 1, a), Fold(config, log, n - 1, b), log[n - 1], n - 1, a[n - 1], b[n - 1]);
    }
  }

  // ----- path ids -----

  /** A roster change in which two pairs take ids. */
  ghost predicate Diverges(c: Core, cmd: Command) {
    && cmd.SetRelayRoster?
    && var i := FindId(c.domains, cmd.network);
       i < |c.domains| && !D.OneTaker(Narrowed(c.domains[i].table, cmd.roster), cmd.now)
  }

  ghost predicate OneOutcome(c: Core, cmd: Command, anchor: Anchor) {
    forall o: Orders, p: Orders :: Listed(c, cmd, o) && Listed(c, cmd, p) ==>
      ApplyCommand(c, cmd, anchor, o) == ApplyCommand(c, cmd, anchor, p)
  }

  lemma RevokeOnce(c: Core, node: NodeId, now: nat, anchor: Anchor, o: Orders, p: Orders)
    requires Listed(c, Command.Revoke(node, now), o) && Listed(c, Command.Revoke(node, now), p)
    ensures RevokeNode(c, node, now, anchor, o) == RevokeNode(c, node, now, anchor, p)
  {
    var ds := FlushAll(c.domains, now);
    var i := FindNode(ds, node);
    if i < |ds| {
      var t := ds[i].table;
      N.RevokeRuns(t, node, o.pass);
      N.RevokeRuns(t, node, p.pass);
      WithdrawNodeGives(t, node, o.pass);
      WithdrawNodeGives(t, node, p.pass);
    }
  }

  lemma RosterOnce(c: Core, cmd: Command, anchor: Anchor, o: Orders, p: Orders)
    requires cmd.SetRelayRoster? && Listed(c, cmd, o) && Listed(c, cmd, p) && !Diverges(c, cmd)
    ensures ApplyCommand(c, cmd, anchor, o) == ApplyCommand(c, cmd, anchor, p)
  {
    var i := FindId(c.domains, cmd.network);
    if i < |c.domains| {
      D.RosterFreeExactly(c.domains[i].table, cmd.roster, cmd.now);
      assert D.ToRoster(N.ApplyRoster(cmd.roster, o.drops, o.pass, cmd.now), cmd.roster, cmd.now);
      assert D.ToRoster(N.ApplyRoster(cmd.roster, p.drops, p.pass, cmd.now), cmd.roster, cmd.now);
    }
  }

  lemma RosterTwice(c: Core, cmd: Command, anchor: Anchor) returns (o: Orders, p: Orders)
    requires Diverges(c, cmd)
    ensures Listed(c, cmd, o) && Listed(c, cmd, p)
    ensures ApplyCommand(c, cmd, anchor, o) != ApplyCommand(c, cmd, anchor, p)
  {
    var i := FindId(c.domains, cmd.network);
    var t := c.domains[i].table;
    D.RosterFreeExactly(t, cmd.roster, cmd.now);
    var x: N.DomainOp, y: N.DomainOp :| D.ToRoster(x, cmd.roster, cmd.now) && D.ToRoster(y, cmd.roster, cmd.now)
      && N.Enabled(t, x) && N.Enabled(t, y) && M.RunFrom(t, N.Calls(t, x)).table != M.RunFrom(t, N.Calls(t, y)).table;
    o, p := Orders(x.order, x.drops), Orders(y.order, y.drops);
    assert N.ApplyRoster(cmd.roster, o.drops, o.pass, cmd.now) == x;
    assert N.ApplyRoster(cmd.roster, p.drops, p.pass, cmd.now) == y;
    assert ApplyCommand(c, cmd, anchor, o).domains[i].table == PathStep(t, x);
    assert ApplyCommand(c, cmd, anchor, p).domains[i].table == PathStep(t, y);
  }

  /** A command gives one core under all orders exactly when it is not a roster change giving ids to two pairs. */
  lemma OneOutcomeExactly(c: Core, cmd: Command, anchor: Anchor)
    ensures OneOutcome(c, cmd, anchor) <==> !Diverges(c, cmd)
  {
    if Diverges(c, cmd) {
      var o, p := RosterTwice(c, cmd, anchor);
    } else {
      forall o: Orders, p: Orders | Listed(c, cmd, o) && Listed(c, cmd, p)
          ensures ApplyCommand(c, cmd, anchor, o) == ApplyCommand(c, cmd, anchor, p) {
        if cmd.Revoke? {
          RevokeOnce(c, cmd.node, cmd.now, anchor, o, p);
        } else if cmd.SetRelayRoster? {
          RosterOnce(c, cmd, anchor, o, p);
        }
      }
    }
  }

  // ----- path ids over whole logs -----

  ghost predicate DivergesEntry(c: Core, e: Entry) {
    e.payload.Normal? && Diverges(c, e.payload.cmd)
  }

  /** A replica that applied n entries, with the orders it took. */
  ghost predicate Applies(config: seq<NetConfig>, log: seq<Entry>, n: nat, orders: seq<Orders>)
    requires n <= |log|
  {
    |orders| == n && AllListed(config, log, n, orders)
  }

  ghost predicate OneCore(config: seq<NetConfig>, log: seq<Entry>, n: nat)
    requires n <= |log|
  {
    forall a, b :: Applies(config, log, n, a) && Applies(config, log, n, b) ==>
      Fold(config, log, n, a) == Fold(config, log, n, b)
  }

  /** No entry gives new path ids to two pairs of a replica. */
  ghost predicate NoneDiverges(config: seq<NetConfig>, log: seq<Entry>, n: nat)
    requires n <= |log|
  {
    forall k, a :: 0 <= k < n && Applies(config, log, k, a) ==> !DivergesEntry(Fold(config, log, k, a), log[k])
  }

  lemma {:induction false} FoldAlong(config: seq<NetConfig>, log: seq<Entry>, n: nat, a: seq<Orders>, b: seq<Orders>)
    requires n <= |log| && n <= |a| && n <= |b| && a[..n] == b[..n]
    ensures Fold(config, log, n, a) == Fold(config, log, n, b)
    ensures AllListed(config, log, n, a) <==> AllListed(config, log, n, b)
  {
    if n > 0 {
      assert a[..n - 1] == a[..n][..n - 1] == b[..n][..n - 1] == b[..n - 1];
      assert a[n - 1] == a[..n][n - 1] == b[..n][n - 1] == b[n - 1];
      FoldAlong(config, log, n - 1, a, b);
    }
  }

  lemma EntryOnce(c: Core, e: Entry, index: nat, o: Orders, p: Orders)
    requires ListedEntry(c, e, o) && ListedEntry(c, e, p) && !DivergesEntry(c, e)
    ensures ApplyEntry(c, e, index, o) == ApplyEntry(c, e, index, p)
  {
    if e.payload.Normal? { OneOutcomeExactly(c, e.payload.cmd, Anchor(index, e.term)); }
  }

  lemma AppliesFront(config: seq<NetConfig>, log: seq<Entry>, n: nat, a: seq<Orders>, front: seq<Orders>, c: Core)
    requires 0 < n <= |log| && Applies(config, log, n, a) && front == a[..n - 1] && c == Fold(config, log, n - 1, front)
    ensures Applies(config, log, n - 1, front) && ListedEntry(c, log[n - 1], a[n - 1])
    ensures Fold(config, log, n, a) == ApplyEntry(c, log[n - 1], n - 1, a[n - 1])
  {
    FoldAlong(config, log, n - 1, a, front);
  }

  lemma {:induction false} NoneDivergesOneCore(config: seq<NetConfig>, log: seq<Entry>, n: nat, a: seq<Orders>,
      b: seq<Orders>)
    requires n <= |log| && Applies(config, log, n, a) && Applies(config, log, n, b) && NoneDiverges(config, log, n)
    ensures Fold(config, log, n, a) == Fold(config, log, n, b)
  {
    if n > 0 {
      var x, y := a[..n - 1], b[..n - 1];
      var c, d := Fold(config, log, n - 1, x), Fold(config, log, n - 1, y);
      AppliesFront(config, log, n, a, x, c);
      AppliesFront(config, log, n, b, y, d);
      NoneBefore(config, log, n - 1, n, x);
      NoneDivergesOneCore(config, log, n - 1, x, y);
      EntryOnce(c, log[n - 1], n - 1, a[n - 1], b[n - 1]);
    }
  }

  lemma NoneBefore(config: seq<NetConfig>, log: seq<Entry>, k: nat, n: nat, a: seq<Orders>)
    requires k < n <= |log| && NoneDiverges(config, log, n) && Applies(config, log, k, a)
    ensures NoneDiverges(config, log, k) && !DivergesEntry(Fold(config, log, k, a), log[k])
  {}

  lemma AppliesMore(config: seq<NetConfig>, log: seq<Entry>, k: nat, n: nat, a: seq<Orders>, o: Orders, c: Core,
      x: Core)
    requires k < |log| && n == k + 1 && Applies(config, log, k, a) && c == Fold(config, log, k, a)
            && ListedEntry(c, log[k], o)
    requires x == ApplyEntry(c, log[k], k, o)
    ensures Applies(config, log, n, a + [o]) && Fold(config, log, n, a + [o]) == x
  {
    FoldAlong(config, log, k, a + [o], a);
  }

  lemma EntryTwice(c: Core, e: Entry, index: nat) returns (o: Orders, p: Orders, x: Core, y: Core)
    requires DivergesEntry(c, e)
    ensures ListedEntry(c, e, o) && ListedEntry(c, e, p) && x != y
    ensures x == ApplyEntry(c, e, index, o) && y == ApplyEntry(c, e, index, p)
  {
    o, p := RosterTwice(c, e.payload.cmd, Anchor(index, e.term));
    x, y := ApplyEntry(c, e, index, o), ApplyEntry(c, e, index, p);
  }

  lemma Part(config: seq<NetConfig>, log: seq<Entry>, n: nat, a: seq<Orders>, b: seq<Orders>, x: Core, y: Core)
    requires n <= |log| && Applies(config, log, n, a) && Applies(config, log, n, b) && x != y
    requires Fold(config, log, n, a) == x && Fold(config, log, n, b) == y
    ensures !OneCore(config, log, n)
  {}

  /** Where an entry diverges, two replicas part. */
  lemma DivergesParts(config: seq<NetConfig>, log: seq<Entry>, k: nat, n: nat, a: seq<Orders>, c: Core)
    requires k < |log| && n == k + 1 && Applies(config, log, k, a) && c == Fold(config, log, k, a)
    requires DivergesEntry(c, log[k])
    ensures !OneCore(config, log, n)
  {
    var o, p, x, y := EntryTwice(c, log[k], k);
    PartAfter(config, log, k, n, a, o, p, c, x, y);
  }

  lemma PartAfter(config: seq<NetConfig>, log: seq<Entry>, k: nat, n: nat, a: seq<Orders>, o: Orders, p: Orders,
      c: Core, x: Core, y: Core)
    requires k < |log| && n == k + 1 && Applies(config, log, k, a) && c == Fold(config, log, k, a)
    requires ListedEntry(c, log[k], o) && ListedEntry(c, log[k], p) && x != y
    requires x == ApplyEntry(c, log[k], k, o) && y == ApplyEntry(c, log[k], k, p)
    ensures !OneCore(config, log, n)
  {
    AppliesMore(config, log, k, n, a, o, c, x);
    AppliesMore(config, log, k, n, a, p, c, y);
    Part(config, log, n, a + [o], a + [p], x, y);
  }

  /** All replicas are equal after each of the first entries exactly when none gives new path ids to two pairs. */
  lemma OneCoreExactly(config: seq<NetConfig>, log: seq<Entry>, n: nat)
    requires n <= |log|
    ensures (forall k :: 0 <= k <= n ==> OneCore(config, log, k)) <==> NoneDiverges(config, log, n)
  {
    if NoneDiverges(config, log, n) {
      forall k | 0 <= k <= n ensures OneCore(config, log, k) {
        forall a, b | Applies(config, log, k, a) && Applies(config, log, k, b)
            ensures Fold(config, log, k, a) == Fold(config, log, k, b) {
          NoneDivergesOneCore(config, log, k, a, b);
        }
      }
    } else {
      var k, a :| 0 <= k < n && Applies(config, log, k, a) && DivergesEntry(Fold(config, log, k, a), log[k]);
      DivergesParts(config, log, k, k + 1, a, Fold(config, log, k, a));
    }
  }

  // ----- running replicas -----

  ghost predicate SameRunningNet(d: Domain, e: Domain) {
    d.(table := e.table, keys := e.keys) == e && SameTable(d.table, e.table)
  }

  /** Equal up to path ids and keys. */
  ghost predicate SameRunning(a: Core, b: Core) {
    && |a.domains| == |b.domains| && a.(domains := b.domains) == b
    && forall i :: 0 <= i < |a.domains| ==> SameRunningNet(a.domains[i], b.domains[i])
  }

  lemma DriftedNet(d: Domain, x: Domain, y: Domain, e: Domain)
    requires KeyDrift.SameNet(d, x) && SameNet(x, y) && KeyDrift.SameNet(e, y)
    ensures SameRunningNet(d, e)
  {}

  lemma DriftedSame(a: Core, x: Core, y: Core, b: Core)
    requires KeyDrift.SameButKeys(a, x) && SameCore(x, y) && KeyDrift.SameButKeys(b, y)
    ensures SameRunning(a, b)
  {
    forall i | 0 <= i < |a.domains| ensures SameRunningNet(a.domains[i], b.domains[i]) {
      DriftedNet(a.domains[i], x.domains[i], y.domains[i], b.domains[i]);
    }
  }

  /**
   * Two replicas that reached the same position of one log, through whatever checkpoints, crashes, heartbeats and
   * orders of their own, agree on everything but keys and path ids.
   */
  lemma RunsAgree(config: seq<NetConfig>, log: seq<Entry>, s: seq<R.MachineStep>, t: seq<R.MachineStep>, n: nat,
      a: seq<Orders>, b: seq<Orders>)
    requires ConfigOk(config) && OneNetworkPerKey(log) && n <= |log|
    requires a == R.OrdersOf(R.TraceOf(log, s).mem) && b == R.OrdersOf(R.TraceOf(log, t).mem)
    requires Applies(config, log, n, a) && Applies(config, log, n, b)
    ensures var x, y := R.MachineRun(config, log, s), R.MachineRun(config, log, t);
            x.Running? && y.Running? && x.applied == y.applied == n && SameRunning(x.core, y.core)
  {
    R.ExactlyOnce(config, log, s);
    R.ExactlyOnce(config, log, t);
    ReplicasAgree(config, log, n, a, b);
    DriftedSame(R.MachineRun(config, log, s).core, Fold(config, log, n, a), Fold(config, log, n, b),
        R.MachineRun(config, log, t).core);
  }
}
