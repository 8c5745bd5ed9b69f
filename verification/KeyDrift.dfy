/** Heartbeats rotate keys outside the log: nothing but the keys of a network depends on its keys. */
module KeyDrift {
  import opened Bytes
  import opened Registries
  import opened CoordCore
  import A = AuthKey
  import K = KeyRotation
  import N = NetworkDomain
  import P = PathModel

  ghost predicate SameNet(d: Domain, e: Domain) {
    d.(keys := e.keys) == e
  }

  ghost predicate SameAll(ds: seq<Domain>, es: seq<Domain>) {
    |ds| == |es| && forall i :: 0 <= i < |ds| ==> SameNet(ds[i], es[i])
  }

  /** Equal in everything except the keys of the networks. */
  ghost predicate SameButKeys(a: Core, b: Core) {
    SameAll(a.domains, b.domains) && a.(domains := b.domains) == b
  }

  /** The same networks with the same registries: everything is found in the same place. */
  ghost predicate Aligned(ds: seq<Domain>, es: seq<Domain>) {
    |ds| == |es| && forall i :: 0 <= i < |ds| ==>
        ds[i].name == es[i].name && ds[i].registry == es[i].registry && ds[i].aclEnabled == es[i].aclEnabled
  }

  lemma AlignedFinds(ds: seq<Domain>, es: seq<Domain>, name: string, id: u32, node: NodeId)
    requires Aligned(ds, es)
    ensures FindName(ds, name) == FindName(es, name) && FindId(ds, id) == FindId(es, id)
    ensures FindNode(ds, node) == FindNode(es, node)
  {}

  lemma AlignedHome(ds: seq<Domain>, es: seq<Domain>, node: NodeId)
    requires Aligned(ds, es)
    ensures DomainOf(ds, node) == DomainOf(es, node)
  {
    AlignedFinds(ds, es, "", 0, node);
    var i := FindNode(ds, node);
    if i < |ds| { AlignedFinds(ds, es, "", ds[i].registry.entries[node].networkId, node); }
  }

  lemma SameAligned(ds: seq<Domain>, es: seq<Domain>)
    requires SameAll(ds, es)
    ensures Aligned(ds, es)
  {
    forall i | 0 <= i < |ds| ensures ds[i].name == es[i].name && ds[i].registry == es[i].registry
        && ds[i].aclEnabled == es[i].aclEnabled {
      assert SameNet(ds[i], es[i]);
    }
  }

  lemma SameFind(ds: seq<Domain>, es: seq<Domain>, name: string, id: u32, node: NodeId)
    requires SameAll(ds, es)
    ensures FindName(ds, name) == FindName(es, name) && FindId(ds, id) == FindId(es, id)
    ensures FindNode(ds, node) == FindNode(es, node)
  {
    SameAligned(ds, es);
    AlignedFinds(ds, es, name, id, node);
  }

  lemma SameHome(ds: seq<Domain>, es: seq<Domain>, node: NodeId)
    requires SameAll(ds, es)
    ensures DomainOf(ds, node) == DomainOf(es, node)
  {
    SameAligned(ds, es);
    AlignedHome(ds, es, node);
  }

  lemma SameUpdate(ds: seq<Domain>, es: seq<Domain>, i: nat, d: Domain, e: Domain)
    requires SameAll(ds, es) && i < |ds| && SameNet(d, e)
    ensures SameAll(ds[i := d], es[i := e])
  {}

  lemma FlushDrifts(ds: seq<Domain>, now: nat)
    ensures SameAll(FlushAll(ds, now), ds)
  {}

  lemma SameTrans(a: seq<Domain>, b: seq<Domain>, c: seq<Domain>)
    requires SameAll(a, b) && SameAll(b, c)
    ensures SameAll(a, c)
  {
    forall i | 0 <= i < |a| ensures SameNet(a[i], c[i]) {
      assert SameNet(a[i], b[i]) && SameNet(b[i], c[i]);
      assert a[i].(keys := b[i].keys).(keys := c[i].keys) == c[i];
    }
  }

  lemma FlushSame(ds: seq<Domain>, es: seq<Domain>, now: nat)
    requires SameAll(ds, es)
    ensures SameAll(FlushAll(ds, now), FlushAll(es, now))
  {
    var x, y := FlushAll(ds, now), FlushAll(es, now);
    forall i | 0 <= i < |ds| ensures SameNet(x[i], y[i]) {
      assert SameNet(ds[i], es[i]);
    }
  }

  /** What the key's network makes of a registration. */
  function RegisterAt(c: Core, i: nat, cmd: Command, anchor: Anchor): Registered
    requires i < |c.domains| && cmd.Register?
  {
    Registries.Register(c.domains[i].registry, cmd.key, cmd.pubkey, cmd.capabilities, cmd.routes, c.nextNodeId, anchor)
  }

  lemma AdmittedIs(c: Core, i: nat, cmd: Command, anchor: Anchor, x: Core)
    requires cmd.Register? && RegisterNode(c, cmd, anchor) == Registration(x, Admitted(c.nextNodeId))
    requires A.Parse(cmd.key).Key? && i == FindName(c.domains, A.Parse(cmd.key).network)
    ensures i < |c.domains| && RegisterAt(c, i, cmd, anchor).NewNode?
    ensures x == c.(domains := c.domains[i := c.domains[i].(registry := RegisterAt(c, i, cmd, anchor).registry)],
                    nextNodeId := c.nextNodeId + 1)
  {}

  lemma AlignedReply(a: Core, b: Core, cmd: Command, anchor: Anchor)
    requires Aligned(a.domains, b.domains) && a.nextNodeId == b.nextNodeId && cmd.Register?
    ensures RegisterNode(a, cmd, anchor).reply == RegisterNode(b, cmd, anchor).reply
  {
    var parsed := A.Parse(cmd.key);
    if parsed.Key? {
      AlignedFinds(a.domains, b.domains, parsed.network, 0, 0);
      var i := FindName(a.domains, parsed.network);
      if i < |a.domains| {
        ReplyIs(a, i, cmd, anchor);
        ReplyIs(b, i, cmd, anchor);
        assert RegisterAt(a, i, cmd, anchor) == RegisterAt(b, i, cmd, anchor);
      }
    }
  }

  lemma ReplyIs(c: Core, i: nat, cmd: Command, anchor: Anchor)
    requires cmd.Register? && A.Parse(cmd.key).Key? && i == FindName(c.domains, A.Parse(cmd.key).network)
    requires i < |c.domains|
    ensures RegisterNode(c, cmd, anchor).reply == ReplyOf(c.domains[i].aclEnabled, RegisterAt(c, i, cmd, anchor),
              c.nextNodeId, A.Parse(cmd.key).expiry, cmd)
  {}

  /** The answer, from what the network's registry says. */
  function ReplyOf(acl: bool, said: Registered, next: NodeId, expiry: nat, cmd: Command): Reply
    requires cmd.Register?
  {
    if expiry != 0 && cmd.now > expiry then Refused(InvalidAuthKey)
    else if acl && !HasCapability(cmd.capabilities, CAPABILITY_ACL) then Refused(AclCapabilityRequired)
    else match said
      case Rejected(e) => Refused(e)
      case Existing(node) => Known(node)
      case NewNode(_) => Admitted(next)
  }

  lemma AdmittedSame(a: Core, b: Core, cmd: Command, anchor: Anchor, x: Core, y: Core)
    requires SameButKeys(a, b) && cmd.Register?
    requires RegisterNode(a, cmd, anchor) == Registration(x, Admitted(a.nextNodeId))
    requires RegisterNode(b, cmd, anchor) == Registration(y, Admitted(b.nextNodeId))
    ensures SameButKeys(x, y)
  {
    var name := A.Parse(cmd.key).network;
    SameFind(a.domains, b.domains, name, 0, 0);
    var i := FindName(a.domains, name);
    AdmittedIs(a, i, cmd, anchor, x);
    AdmittedIs(b, i, cmd, anchor, y);
    assert SameNet(a.domains[i], b.domains[i]);
    SameUpdate(a.domains, b.domains, i, x.domains[i], y.domains[i]);
  }

  lemma RegisterSame(a: Core, b: Core, cmd: Command, anchor: Anchor)
    requires SameButKeys(a, b) && cmd.Register?
    ensures SameButKeys(RegisterNode(a, cmd, anchor).core, RegisterNode(b, cmd, anchor).core)
  {
    SameAligned(a.domains, b.domains);
    AlignedReply(a, b, cmd, anchor);
    var x, y := RegisterNode(a, cmd, anchor), RegisterNode(b, cmd, anchor);
    if x.reply.Admitted? { AdmittedSame(a, b, cmd, anchor, x.core, y.core); }
  }

  lemma DropSame(d: Domain, e: Domain, node: NodeId, now: nat, pass: seq<P.Pair>)
    requires SameNet(d, e)
    ensures SameNet(DropNode(d, node, now, pass), DropNode(e, node, now, pass))
  {}

  lemma RevokeSame(a: Core, b: Core, node: NodeId, now: nat, anchor: Anchor, orders: Orders)
    requires SameButKeys(a, b)
    ensures SameButKeys(RevokeNode(a, node, now, anchor, orders), RevokeNode(b, node, now, anchor, orders))
  {
    var ds, es := FlushAll(a.domains, now), FlushAll(b.domains, now);
    FlushSame(a.domains, b.domains, now);
    SameFind(ds, es, "", 0, node);
    var i := FindNode(ds, node);
    if i < |ds| { RevokeFoundSame(a, b, node, now, anchor, orders, i, ds, es); }
  }

  lemma RevokeFoundSame(a: Core, b: Core, node: NodeId, now: nat, anchor: Anchor, orders: Orders, i: nat,
      ds: seq<Domain>, es: seq<Domain>)
    requires SameButKeys(a, b) && ds == FlushAll(a.domains, now) && es == FlushAll(b.domains, now) && SameAll(ds, es)
    requires i == FindNode(ds, node) == FindNode(es, node) && i < |ds|
    ensures SameButKeys(RevokeNode(a, node, now, anchor, orders), RevokeNode(b, node, now, anchor, orders))
  {
    var d, e := DropNode(ds[i], node, now, orders.pass), DropNode(es[i], node, now, orders.pass);
    RevokeIs(a, node, now, anchor, orders, ds, i, d);
    RevokeIs(b, node, now, anchor, orders, es, i, e);
    DropSame(ds[i], es[i], node, now, orders.pass);
    SameUpdate(ds, es, i, d, e);
  }

  lemma UpdateSame(a: Core, b: Core, i: nat, op: N.DomainOp)
    requires SameButKeys(a, b) && i < |a.domains|
    ensures SameButKeys(UpdateTable(a, i, op), UpdateTable(b, i, op))
  {
    assert SameNet(a.domains[i], b.domains[i]);
    SameUpdate(a.domains, b.domains, i, UpdateTable(a, i, op).domains[i], UpdateTable(b, i, op).domains[i]);
  }

  lemma RequestSame(a: Core, b: Core, source: NodeId, dest: NodeId, max: nat, now: nat)
    requires SameButKeys(a, b)
    ensures SameButKeys(RequestNodePaths(a, source, dest, max, now), RequestNodePaths(b, source, dest, max, now))
  {
    SameHome(a.domains, b.domains, source);
    SameHome(a.domains, b.domains, dest);
    var i, j := DomainOf(a.domains, source), DomainOf(a.domains, dest);
    if i < |a.domains| && j < |a.domains| {
      assert SameNet(a.domains[i], b.domains[i]) && SameNet(a.domains[j], b.domains[j]);
      var id := a.domains[i].registry.networkId;
      SameFind(a.domains, b.domains, "", id, 0);
      if id == a.domains[j].registry.networkId {
        UpdateSame(a, b, FindId(a.domains, id), N.RequestPaths(P.Pair(source, dest), max, now));
      }
    }
  }

  lemma RosterSame(a: Core, b: Core, cmd: Command, anchor: Anchor, orders: Orders)
    requires SameButKeys(a, b) && cmd.SetRelayRoster?
    ensures SameButKeys(ApplyCommand(a, cmd, anchor, orders), ApplyCommand(b, cmd, anchor, orders))
  {
    SameFind(a.domains, b.domains, "", cmd.network, 0);
    var i := FindId(a.domains, cmd.network);
    if i < |a.domains| { UpdateSame(a, b, i, N.ApplyRoster(cmd.roster, orders.drops, orders.pass, cmd.now)); }
  }

  lemma RotateSame(a: Core, b: Core, name: string, anchor: Anchor, orders: Orders)
    requires SameButKeys(a, b)
    ensures SameButKeys(ApplyCommand(a, RotateMasterKey(name), anchor, orders),
                        ApplyCommand(b, RotateMasterKey(name), anchor, orders))
  {
    SameFind(a.domains, b.domains, name, 0, 0);
    var i := FindName(a.domains, name);
    if i < |a.domains| {
      var d, e := a.domains[i], b.domains[i];
      assert SameNet(d, e);
      SameUpdate(a.domains, b.domains, i, d.(keys := K.Rotate(d.keys)), e.(keys := K.Rotate(e.keys)));
    }
  }

  /** No command carries a difference in keys over to anything else. */
  lemma CommandSame(a: Core, b: Core, cmd: Command, anchor: Anchor, orders: Orders)
    requires SameButKeys(a, b)
    ensures SameButKeys(ApplyCommand(a, cmd, anchor, orders), ApplyCommand(b, cmd, anchor, orders))
  {
    match cmd
    case Register(_, _, _, _, _) => RegisterSame(a, b, cmd, anchor);
    case Revoke(node, now) => RevokeSame(a, b, node, now, anchor, orders);
    case SetEndpoints(_, _, _) =>
    case RequestPaths(source, dest, max, now) => RequestSame(a, b, source, dest, max, now);
    case SetRelayRoster(_, _, _) => RosterSame(a, b, cmd, anchor, orders);
    case RotateMasterKey(name) => RotateSame(a, b, name, anchor, orders);
    case FlushRevokeRotations(now) => FlushSame(a.domains, b.domains, now);
  }

  /** The part of a good core that its keys have no say in. */
  lemma SameOk(a: Core, b: Core)
    requires SameButKeys(a, b) && CoreOk(b)
    ensures CoreOk(a)
  {
    forall i | 0 <= i < |a.domains|
        ensures a.domains[i].registry == b.domains[i].registry && a.domains[i].name == b.domains[i].name {
      assert SameNet(a.domains[i], b.domains[i]);
    }
    forall i | 0 <= i < |a.domains| ensures RegistryOk(a.domains[i].registry, a.nextNodeId) && SpentHome(a.domains[i]) {
      assert RegistryOk(b.domains[i].registry, b.nextNodeId) && SpentHome(b.domains[i]);
    }
  }
}
