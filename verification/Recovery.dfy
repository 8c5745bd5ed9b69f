/**
 * Restoring a saved core and configuring it again gives the core back, exactly when no public key lives in two
 * networks.
 */
module Recovery {
  import opened Bytes
  import opened Prefixes
  import opened Registries
  import opened CoordCore
  import opened Persistence
  import K = KeyRotation
  import P = PathModel

  /** The core carries a configuration. */
  ghost predicate Configured(c: Core, config: seq<NetConfig>) {
    |c.domains| == |config| && forall i :: 0 <= i < |config| ==> ConfiguredNet(c.domains[i], config[i])
  }

  ghost predicate ConfiguredNet(d: Domain, net: NetConfig) {
    && d.name == net.name && d.registry.networkId == net.id
    && d.registry.authKeys == LiveKeys(d.registry.consumed, net.keys) && d.registry.whitelist == net.whitelist
    && d.aclEnabled == net.aclEnabled && d.exitAllow == net.exits
  }

  /** No public key is registered in two networks. */
  ghost predicate PubkeysApart(ds: seq<Domain>) {
    forall i, j, pk :: 0 <= i < j < |ds| && pk in ds[i].registry.pubkeys ==> pk !in ds[j].registry.pubkeys
  }

  // ----- the node table -----

  ghost predicate Belongs(ds: seq<Domain>, e: NodeEntry) {
    exists i :: 0 <= i < |ds| && e.nodeId in ds[i].registry.entries && ds[i].registry.entries[e.nodeId] == e
  }

  ghost predicate Sorted(nodes: seq<NodeEntry>) {
    forall i, j :: 0 <= i < j < |nodes| ==> nodes[i].nodeId < nodes[j].nodeId
  }

  /** Entries of the core, with ids below a bound. */
  ghost predicate AllBelow(ds: seq<Domain>, nodes: seq<NodeEntry>, bound: NodeId) {
    forall k :: 0 <= k < |nodes| ==> nodes[k].nodeId < bound && Belongs(ds, nodes[k])
  }

  lemma SortedSnoc(ds: seq<Domain>, nodes: seq<NodeEntry>, e: NodeEntry)
    requires Sorted(nodes) && AllBelow(ds, nodes, e.nodeId) && Belongs(ds, e)
    ensures Sorted(nodes + [e]) && AllBelow(ds, nodes + [e], e.nodeId + 1)
  {}

  lemma {:induction false} NodesSound(c: Core, bound: NodeId)
    requires CoreOk(c) && bound <= c.nextNodeId
    ensures Sorted(NodesBelow(c.domains, bound)) && AllBelow(c.domains, NodesBelow(c.domains, bound), bound)
  {
    if bound > 0 {
      NodesSound(c, bound - 1);
      var i := FindNode(c.domains, bound - 1);
      if i < |c.domains| {
        assert RegistryOk(c.domains[i].registry, c.nextNodeId);
        var e := c.domains[i].registry.entries[bound - 1];
        assert Belongs(c.domains, e);
        SortedSnoc(c.domains, NodesBelow(c.domains, bound - 1), e);
      }
    }
  }

  lemma {:induction false} NodesComplete(c: Core, bound: NodeId, i: nat, n: NodeId)
    requires CoreOk(c) && n < bound && i < |c.domains| && n in c.domains[i].registry.entries
    ensures c.domains[i].registry.entries[n] in NodesBelow(c.domains, bound)
  {
    if n == bound - 1 {
      HomeOf(c, n);
    } else {
      NodesComplete(c, bound - 1, i, n);
    }
  }

  // ----- what the checks accept -----

  ghost predicate NetworksKnown(ds: seq<Domain>, nodes: seq<NodeEntry>) {
    forall k :: 0 <= k < |nodes| ==> FindId(ds, nodes[k].networkId) < |ds|
  }

  lemma {:induction false} CheckExact(ds: seq<Domain>, nodes: seq<NodeEntry>)
    ensures CheckNodes(ds, nodes).None? <==> Distinct(nodes) && NetworksKnown(ds, nodes)
  {
    if nodes != [] {
      var front, last := nodes[..|nodes| - 1], nodes[|nodes| - 1];
      CheckExact(ds, front);
      assert nodes == front + [last];
      SnocDistinct(front, last);
      SnocKnown(ds, front, last);
    }
  }

  lemma SnocDistinct(front: seq<NodeEntry>, last: NodeEntry)
    ensures Distinct(front + [last]) <==>
            Distinct(front) && !HasNode(front, last.nodeId) && !HasPubkey(front, last.pubkey)
  {
    var all := front + [last];
    if Distinct(all) {
      forall i | 0 <= i < |front| ensures front[i].nodeId != last.nodeId && front[i].pubkey != last.pubkey {
        assert all[i] == front[i] && all[|front|] == last;
      }
      forall i, j | 0 <= i < j < |front| ensures front[i].nodeId != front[j].nodeId
          && front[i].pubkey != front[j].pubkey {
        assert all[i] == front[i] && all[j] == front[j];
      }
    }
  }

  lemma SnocKnown(ds: seq<Domain>, front: seq<NodeEntry>, last: NodeEntry)
    ensures NetworksKnown(ds, front + [last]) <==> NetworksKnown(ds, front) && FindId(ds, last.networkId) < |ds|
  {
    var all := front + [last];
    if NetworksKnown(ds, all) {
      assert all[|front|] == last;
      forall k | 0 <= k < |front| ensures FindId(ds, front[k].networkId) < |ds| { assert all[k] == front[k]; }
    }
  }

  lemma NodesKnown(c: Core, config: seq<NetConfig>)
    requires CoreOk(c) && Configured(c, config)
    ensures NetworksKnown(FreshDomains(config), NodesBelow(c.domains, c.nextNodeId))
  {
    var nodes := NodesBelow(c.domains, c.nextNodeId);
    NodesSound(c, c.nextNodeId);
    forall k | 0 <= k < |nodes| ensures FindId(FreshDomains(config), nodes[k].networkId) < |config| {
      var i := Home(c, nodes[k]);
      assert ConfiguredNet(c.domains[i], config[i]);
      assert FreshDomains(config)[i].registry.networkId == nodes[k].networkId;
    }
  }

  lemma KeyVersionsKnown(c: Core, config: seq<NetConfig>, i: nat)
    requires Configured(c, config) && i < |config|
    ensures config[i].id in Snapshot(c).keyVersions
  {
    assert ConfiguredNet(c.domains[i], config[i]);
  }

  lemma MaxBelow(c: Core)
    requires CoreOk(c)
    ensures MaxNode(NodesBelow(c.domains, c.nextNodeId)) < c.nextNodeId
  {
    NodesSound(c, c.nextNodeId);
  }

  /** Everything but the node table passes. */
  lemma OtherChecksPass(c: Core, config: seq<NetConfig>)
    requires CoreOk(c) && Configured(c, config)
    ensures VersionsKnown(FreshDomains(config), Snapshot(c))
    ensures RestoreState(Fresh(config), Snapshot(c)) ==
            var e := CheckNodes(FreshDomains(config), NodesBelow(c.domains, c.nextNodeId));
            if e.Some? then Inconsistent(e.value)
            else Restored(Core(RestoreDomains(FreshDomains(config), Snapshot(c)), c.nextNodeId, c.endpoints, c.revoked))
  {
    MaxBelow(c);
    forall i | 0 <= i < |config| ensures FreshDomains(config)[i].registry.networkId in Snapshot(c).keyVersions {
      KeyVersionsKnown(c, config, i);
    }
  }

  /** Where a listed entry lives. */
  lemma Home(c: Core, e: NodeEntry) returns (i: nat)
    requires CoreOk(c) && Belongs(c.domains, e)
    ensures i < |c.domains| && e.nodeId in c.domains[i].registry.entries && c.domains[i].registry.entries[e.nodeId] == e
    ensures e.networkId == c.domains[i].registry.networkId
    ensures e.pubkey in c.domains[i].registry.pubkeys && c.domains[i].registry.pubkeys[e.pubkey] == e.nodeId
  {
    i :| 0 <= i < |c.domains| && e.nodeId in c.domains[i].registry.entries && c.domains[i].registry.entries[e.nodeId]
        == e;
    assert RegistryOk(c.domains[i].registry, c.nextNodeId);
  }

  lemma KeysDiffer(c: Core, e: NodeEntry, f: NodeEntry)
    requires CoreOk(c) && PubkeysApart(c.domains) && Belongs(c.domains, e) && Belongs(c.domains, f)
            && e.nodeId != f.nodeId
    ensures e.pubkey != f.pubkey
  {
    var i := Home(c, e);
    var j := Home(c, f);
  }

  lemma ApartDistinct(c: Core)
    requires CoreOk(c) && PubkeysApart(c.domains)
    ensures Distinct(NodesBelow(c.domains, c.nextNodeId))
  {
    var nodes := NodesBelow(c.domains, c.nextNodeId);
    NodesSound(c, c.nextNodeId);
    forall k, l | 0 <= k < l < |nodes| ensures nodes[k].nodeId != nodes[l].nodeId
        && nodes[k].pubkey != nodes[l].pubkey {
      KeysDiffer(c, nodes[k], nodes[l]);
    }
  }

  lemma SharedKey(c: Core, i: nat, j: nat, pk: Pubkey)
    requires CoreOk(c) && i < j < |c.domains| && pk in c.domains[i].registry.pubkeys
            && pk in c.domains[j].registry.pubkeys
    ensures !Distinct(NodesBelow(c.domains, c.nextNodeId))
  {
    var nodes := NodesBelow(c.domains, c.nextNodeId);
    var n := Owner(c, i, pk);
    var m := Owner(c, j, pk);
    assert n != m by { HomeOf(c, n); }
    NodesComplete(c, c.nextNodeId, i, n);
    NodesComplete(c, c.nextNodeId, j, m);
    var k :| 0 <= k < |nodes| && nodes[k] == c.domains[i].registry.entries[n];
    var l :| 0 <= l < |nodes| && nodes[l] == c.domains[j].registry.entries[m];
    assert nodes[k].pubkey == nodes[l].pubkey && k != l;
    assert !(nodes[if k < l then k else l].pubkey != nodes[if k < l then l else k].pubkey);
  }

  lemma DistinctApart(c: Core)
    requires CoreOk(c) && Distinct(NodesBelow(c.domains, c.nextNodeId))
    ensures PubkeysApart(c.domains)
  {
    forall i, j, pk | 0 <= i < j < |c.domains| && pk in c.domains[i].registry.pubkeys
        ensures pk !in c.domains[j].registry.pubkeys {
      if pk in c.domains[j].registry.pubkeys { SharedKey(c, i, j, pk); }
    }
  }

  lemma Owner(c: Core, i: nat, pk: Pubkey) returns (n: NodeId)
    requires CoreOk(c) && i < |c.domains| && pk in c.domains[i].registry.pubkeys
    ensures n in c.domains[i].registry.entries && c.domains[i].registry.entries[n].pubkey == pk && n < c.nextNodeId
    ensures c.domains[i].registry.entries[n].nodeId == n
  {
    assert RegistryOk(c.domains[i].registry, c.nextNodeId);
    n := c.domains[i].registry.pubkeys[pk];
  }

  /** A saved core is accepted exactly when no public key is registered in two networks. */
  lemma AcceptedExactly(c: Core, config: seq<NetConfig>)
    requires CoreOk(c) && Configured(c, config)
    ensures RestoreState(Fresh(config), Snapshot(c)).Restored? <==> PubkeysApart(c.domains)
    ensures RestoreState(Fresh(config), Snapshot(c)).Inconsistent? ==>
              RestoreState(Fresh(config), Snapshot(c)).error == DuplicatePubkey
  {
    var nodes := NodesBelow(c.domains, c.nextNodeId);
    OtherChecksPass(c, config);
    NodesKnown(c, config);
    CheckExact(FreshDomains(config), nodes);
    if PubkeysApart(c.domains) { ApartDistinct(c); }
    if Distinct(nodes) { DistinctApart(c); }
    NodesSound(c, c.nextNodeId);
    if CheckNodes(FreshDomains(config), nodes).Some? { OnlyPubkeys(FreshDomains(config), nodes); }
  }

  lemma {:induction false} OnlyPubkeys(ds: seq<Domain>, nodes: seq<NodeEntry>)
    requires Sorted(nodes) && NetworksKnown(ds, nodes) && CheckNodes(ds, nodes).Some?
    ensures CheckNodes(ds, nodes).value == DuplicatePubkey
  {
    var front, last := nodes[..|nodes| - 1], nodes[|nodes| - 1];
    assert nodes == front + [last];
    SnocKnown(ds, front, last);
    if CheckNodes(ds, front).Some? { OnlyPubkeys(ds, front); }
  }

  // ----- what restoring gives -----

  lemma {:induction false} FilterMembers(nodes: seq<NodeEntry>, id: u32)
    ensures forall e :: e in Filter(nodes, id) <==> e in nodes && e.networkId == id
  {
    if nodes != [] {
      FilterMembers(nodes[..|nodes| - 1], id);
      assert nodes == nodes[..|nodes| - 1] + [nodes[|nodes| - 1]];
    }
  }

  lemma {:induction false} FilterDistinct(nodes: seq<NodeEntry>, id: u32)
    requires Distinct(nodes)
    ensures Distinct(Filter(nodes, id))
  {
    if nodes != [] {
      var front, last := nodes[..|nodes| - 1], nodes[|nodes| - 1];
      assert nodes == front + [last];
      SnocDistinct(front, last);
      FilterDistinct(front, id);
      FilterMembers(front, id);
      NotHad(front, Filter(front, id), last);
      SnocDistinct(Filter(front, id), last);
    }
  }

  lemma NotHad(nodes: seq<NodeEntry>, some: seq<NodeEntry>, e: NodeEntry)
    requires !HasNode(nodes, e.nodeId) && !HasPubkey(nodes, e.pubkey) && forall x :: x in some ==> x in nodes
    ensures !HasNode(some, e.nodeId) && !HasPubkey(some, e.pubkey)
  {
    forall i | 0 <= i < |some| ensures some[i].nodeId != e.nodeId && some[i].pubkey != e.pubkey {
      assert some[i] in nodes;
      var j :| 0 <= j < |nodes| && nodes[j] == some[i];
    }
  }

  /** The saved entries of a network list exactly its entries. */
  lemma FilterLists(c: Core, i: nat)
    requires CoreOk(c) && i < |c.domains|
    ensures Listing(Filter(NodesBelow(c.domains, c.nextNodeId), c.domains[i].registry.networkId),
            c.domains[i].registry.entries)
  {
    var r := c.domains[i].registry;
    var nodes := NodesBelow(c.domains, c.nextNodeId);
    var mine := Filter(nodes, r.networkId);
    FilterMembers(nodes, r.networkId);
    NodesSound(c, c.nextNodeId);
    forall k | 0 <= k < |mine| ensures mine[k].nodeId in r.entries && r.entries[mine[k].nodeId] == mine[k] {
      assert mine[k] in nodes;
      var j := Home(c, mine[k]);
      assert j == i;
    }
    forall n | n in r.entries ensures r.entries[n] in mine {
      assert RegistryOk(r, c.nextNodeId);
      NodesComplete(c, c.nextNodeId, i, n);
    }
  }

  lemma HomeKeysGive(c: Core, i: nat)
    requires CoreOk(c) && i < |c.domains|
    ensures HomeKeys(AllConsumed(c.domains), c.domains[i].name) == c.domains[i].registry.consumed
  {
    var mine := c.domains[i].registry.consumed;
    forall k | k in HomeKeys(AllConsumed(c.domains), c.domains[i].name) ensures k in mine {
      var j :| 0 <= j < |c.domains| && k in c.domains[j].registry.consumed;
      assert SpentHome(c.domains[j]);
      assert j == i;
    }
    forall k | k in mine ensures k in HomeKeys(AllConsumed(c.domains), c.domains[i].name) {
      assert SpentHome(c.domains[i]);
    }
  }

  lemma RegistryBack(c: Core, config: seq<NetConfig>, i: nat)
    requires CoreOk(c) && Configured(c, config) && PubkeysApart(c.domains) && i < |config|
    ensures var s := Snapshot(c);
            var r := c.domains[i].registry;
            Restore(Empty(config[i].id), Filter(s.nodes, config[i].id), HomeKeys(s.consumed, config[i].name))
            == r.(authKeys := map[], whitelist := [])
  {
    var r := c.domains[i].registry;
    var nodes := NodesBelow(c.domains, c.nextNodeId);
    assert ConfiguredNet(c.domains[i], config[i]) && RegistryOk(r, c.nextNodeId);
    ApartDistinct(c);
    FilterDistinct(nodes, r.networkId);
    FilterLists(c, i);
    HomeKeysGive(c, i);
    RestoreGives(Empty(r.networkId), Filter(nodes, r.networkId), r.consumed, r.entries);
    IndexUnique(Restore(Empty(r.networkId), Filter(nodes, r.networkId), r.consumed), r);
  }

  lemma SideBack(c: Core, config: seq<NetConfig>, i: nat)
    requires CoreOk(c) && Configured(c, config) && i < |config|
    ensures var s, id, d := Snapshot(c), config[i].id, c.domains[i];
            && id in s.keyVersions && id in s.pathMaps && id in s.rosters
            && d.keys == K.Keys(s.keyVersions[id], if id in s.pendings then Some(s.pendings[id]) else None)
            && d.table == P.Table(s.pathMaps[id].sets, s.pathMaps[id].lastId, s.rosters[id])
  {
    assert ConfiguredNet(c.domains[i], config[i]);
    assert FindId(c.domains, config[i].id) == i;
  }

  lemma DomainBack(c: Core, config: seq<NetConfig>, i: nat)
    requires CoreOk(c) && Configured(c, config) && PubkeysApart(c.domains) && i < |config|
    requires config[i].id in Snapshot(c).keyVersions
    ensures ConfigureDomain(RestoreDomain(FreshDomain(config[i]), Snapshot(c)), config[i]) == c.domains[i]
  {
    assert ConfiguredNet(c.domains[i], config[i]);
    RegistryBack(c, config, i);
    SideBack(c, config, i);
    ConfigureGives(c.domains[i].registry.(authKeys := map[], whitelist := []), config[i].keys, config[i].whitelist);
  }

  lemma DomainsBack(c: Core, config: seq<NetConfig>, ds: seq<Domain>)
    requires CoreOk(c) && Configured(c, config) && PubkeysApart(c.domains)
    requires VersionsKnown(FreshDomains(config), Snapshot(c)) && ds == RestoreDomains(FreshDomains(config), Snapshot(c))
    ensures ConfigureDomains(ds, config) == c.domains
  {
    forall i | 0 <= i < |config| ensures ConfigureDomains(ds, config)[i] == c.domains[i] {
      KeyVersionsKnown(c, config, i);
      DomainBack(c, config, i);
    }
  }

  /** Saving, restoring into a fresh coordinator and configuring it again is the identity. */
  lemma RestoreSnapshot(c: Core, config: seq<NetConfig>)
    requires CoreOk(c) && Configured(c, config) && PubkeysApart(c.domains)
    ensures var x := RestoreState(Fresh(config), Snapshot(c));
            x.Restored? && |x.core.domains| == |config| && Configure(x.core, config) == c
  {
    AcceptedExactly(c, config);
    OtherChecksPass(c, config);
    DomainsBack(c, config, RestoreDomains(FreshDomains(config), Snapshot(c)));
  }
}
