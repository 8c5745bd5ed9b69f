/** Which operations write the state file, and that all the others leave what it holds unchanged. */
module WriteThrough {
  import opened Bytes
  import opened Prefixes
  import opened Registries
  import opened CoordCore
  import opened Persistence
  import opened Recovery
  import opened CoordinatorModel
  import A = AuthKey
  import K = KeyRotation

  // ----- who writes -----

  /** Some network's batched rotation is due. */
  predicate Rotates(c: Core, now: nat) {
    exists i :: 0 <= i < |c.domains| && K.Due(c.domains[i].keys, now)
  }

  predicate CommandWrites(c: Core, cmd: Command, anchor: Anchor) {
    match cmd
    case Register(_, _, _, _, _) => !RegisterNode(c, cmd, anchor).reply.Refused?
    case Revoke(_, now) => Rotates(c, now) || Forgets(c, cmd)
    case SetEndpoints(_, _, _) => true
    case RequestPaths(source, dest, _, _) =>
      var i, j := DomainOf(c.domains, source), DomainOf(c.domains, dest);
      i < |c.domains| && j < |c.domains| && c.domains[i].registry.networkId == c.domains[j].registry.networkId
    case SetRelayRoster(id, _, _) => FindId(c.domains, id) < |c.domains|
    case RotateMasterKey(name) => FindName(c.domains, name) < |c.domains|
    case FlushRevokeRotations(now) => Rotates(c, now)
  }

  /** Settings and leases are not written; a heartbeat writes the rotations it applies. */
  predicate Writes(c: Core, op: Op) {
    match op
    case Logged(cmd, anchor, _) => CommandWrites(c, cmd, anchor)
    case Heartbeat(_, now) => Rotates(c, now)
    case _ => false
  }

  // ----- what the file holds -----

  /** Alike in all that a snapshot takes from a network. */
  ghost predicate SavedAlike(d: Domain, e: Domain) {
    && d.registry.networkId == e.registry.networkId && d.registry.entries == e.registry.entries
    && d.registry.consumed == e.registry.consumed && d.keys == e.keys && d.table == e.table
  }

  ghost predicate AllSavedAlike(a: seq<Domain>, b: seq<Domain>) {
    |a| == |b| && forall i :: 0 <= i < |a| ==> SavedAlike(a[i], b[i])
  }

  lemma AlikeFinds(a: seq<Domain>, b: seq<Domain>, id: u32, node: NodeId)
    requires AllSavedAlike(a, b)
    ensures FindId(a, id) == FindId(b, id) && FindNode(a, node) == FindNode(b, node)
  {
    assert forall i :: 0 <= i < |a| ==> SavedAlike(a[i], b[i]);
  }

  /** The entry an id has, as the snapshot lists it. */
  function EntryOf(ds: seq<Domain>, node: NodeId): seq<NodeEntry> {
    var i := FindNode(ds, node);
    if i == |ds| then [] else [ds[i].registry.entries[node]]
  }

  lemma AlikeEntry(a: seq<Domain>, b: seq<Domain>, node: NodeId)
    requires AllSavedAlike(a, b)
    ensures EntryOf(a, node) == EntryOf(b, node)
  {
    AlikeFinds(a, b, 0, node);
    var i := FindNode(a, node);
    if i < |a| { assert SavedAlike(a[i], b[i]); }
  }

  lemma NodesStep(ds: seq<Domain>, bound: NodeId, below: NodeId)
    requires bound > 0 && below == bound - 1
    ensures NodesBelow(ds, bound) == NodesBelow(ds, below) + EntryOf(ds, below)
  {}

  lemma {:induction false} AlikeNodes(a: seq<Domain>, b: seq<Domain>, bound: NodeId)
    requires AllSavedAlike(a, b)
    ensures NodesBelow(a, bound) == NodesBelow(b, bound)
  {
    if bound > 0 {
      var below := bound - 1;
      AlikeNodes(a, b, below);
      AlikeEntry(a, b, below);
      NodesStep(a, bound, below);
      NodesStep(b, bound, below);
    }
  }

  lemma AlikeConsumed(a: seq<Domain>, b: seq<Domain>)
    requires AllSavedAlike(a, b)
    ensures AllConsumed(a) == AllConsumed(b)
  {
    forall k | k in AllConsumed(a) ensures k in AllConsumed(b) {
      var i :| 0 <= i < |a| && k in a[i].registry.consumed;
      assert SavedAlike(a[i], b[i]);
    }
    forall k | k in AllConsumed(b) ensures k in AllConsumed(a) {
      var i :| 0 <= i < |b| && k in b[i].registry.consumed;
      assert SavedAlike(a[i], b[i]);
    }
  }

  lemma AlikeIds(a: seq<Domain>, b: seq<Domain>)
    requires AllSavedAlike(a, b)
    ensures Ids(a) == Ids(b)
    ensures forall id :: id in Ids(a) ==> Found(a, b, id)
  {
    forall id: u32 ensures FindId(a, id) == FindId(b, id) { AlikeFinds(a, b, id, 0); }
  }

  ghost predicate Found(a: seq<Domain>, b: seq<Domain>, id: u32) {
    var i := FindId(a, id);
    FindId(b, id) == i && i < |a| && i < |b| && SavedAlike(a[i], b[i])
  }

  lemma SnapshotAt(c: Core, s: CoordState, id: u32, i: nat)
    requires s == Snapshot(c) && i == FindId(c.domains, id) && i < |c.domains|
    ensures var d := c.domains[i];
            && id in s.keyVersions && s.keyVersions[id] == d.keys.version
            && id in s.pathMaps && s.pathMaps[id] == SavedPaths(d.table.sets, d.table.lastId)
            && id in s.rosters && s.rosters[id] == d.table.relays
            && (id in s.pendings <==> d.keys.pending.Some?) && (id in s.pendings ==>
                Some(s.pendings[id]) == d.keys.pending)
  {}

  lemma SnapshotIds(c: Core, s: CoordState)
    requires s == Snapshot(c)
    ensures s.keyVersions.Keys == Ids(c.domains) && s.pathMaps.Keys == Ids(c.domains)
    ensures s.rosters.Keys == Ids(c.domains) && s.pendings.Keys <= Ids(c.domains)
  {}

  ghost predicate SameAt(s: CoordState, t: CoordState, id: u32) {
    && id in s.keyVersions && id in t.keyVersions && s.keyVersions[id] == t.keyVersions[id]
    && id in s.pathMaps && id in t.pathMaps && s.pathMaps[id] == t.pathMaps[id]
    && id in s.rosters && id in t.rosters && s.rosters[id] == t.rosters[id]
    && (id in s.pendings <==> id in t.pendings) && (id in s.pendings ==> s.pendings[id] == t.pendings[id])
  }

  lemma SameTables(s: CoordState, t: CoordState, ids: set<u32>)
    requires s.keyVersions.Keys == t.keyVersions.Keys == s.pathMaps.Keys == t.pathMaps.Keys == ids
    requires s.rosters.Keys == t.rosters.Keys == ids && s.pendings.Keys <= ids && t.pendings.Keys <= ids
    requires forall id :: id in ids ==> SameAt(s, t, id)
    ensures s.keyVersions == t.keyVersions && s.pathMaps == t.pathMaps && s.rosters == t.rosters
            && s.pendings == t.pendings
  {
    forall id | id in s.pendings.Keys + t.pendings.Keys
        ensures id in s.pendings && id in t.pendings && s.pendings[id] == t.pendings[id] {
      assert SameAt(s, t, id);
    }
    forall id | id in ids ensures s.keyVersions[id] == t.keyVersions[id] && s.pathMaps[id] == t.pathMaps[id]
        && s.rosters[id] == t.rosters[id] {
      assert SameAt(s, t, id);
    }
  }

  lemma AlikeAt(c: Core, x: Core, s: CoordState, t: CoordState, id: u32)
    requires s == Snapshot(c) && t == Snapshot(x) && Found(c.domains, x.domains, id)
    ensures SameAt(s, t, id)
  {
    SnapshotAt(c, s, id, FindId(c.domains, id));
    SnapshotAt(x, t, id, FindId(x.domains, id));
  }

  lemma AlikeMaps(c: Core, x: Core, s: CoordState, t: CoordState)
    requires s == Snapshot(c) && t == Snapshot(x) && AllSavedAlike(c.domains, x.domains)
    ensures s.keyVersions == t.keyVersions && s.pathMaps == t.pathMaps && s.rosters == t.rosters
            && s.pendings == t.pendings
  {
    AlikeIds(c.domains, x.domains);
    SnapshotIds(c, s);
    SnapshotIds(x, t);
    forall id | id in Ids(c.domains) ensures SameAt(s, t, id) { AlikeAt(c, x, s, t, id); }
    SameTables(s, t, Ids(c.domains));
  }

  lemma AlikeSnapshot(c: Core, x: Core)
    requires AllSavedAlike(c.domains, x.domains) && c.(domains := x.domains) == x
    ensures Snapshot(c) == Snapshot(x)
  {
    AlikeNodes(c.domains, x.domains, c.nextNodeId);
    AlikeConsumed(c.domains, x.domains);
    AlikeMaps(c, x, Snapshot(c), Snapshot(x));
  }

  /** Alike in all that a snapshot takes. */
  ghost predicate Kept(c: Core, x: Core) {
    AllSavedAlike(c.domains, x.domains) && c.(domains := x.domains) == x
  }

  lemma NothingDue(c: Core, now: nat)
    requires !Rotates(c, now)
    ensures FlushAll(c.domains, now) == c.domains
  {}

  lemma UnwrittenCommand(c: Core, cmd: Command, anchor: Anchor, orders: Orders)
    requires !CommandWrites(c, cmd, anchor)
    ensures ApplyCommand(c, cmd, anchor, orders) == c
  {
    if cmd.Revoke? || cmd.FlushRevokeRotations? { NothingDue(c, cmd.now); }
  }

  lemma SettingKept(c: Coordinator, name: string, d: Domain)
    requires Named(c, name).Some? && SavedAlike(Named(c, name).value, d)
    ensures Kept(c.core, UpdateDomain(c, name, d).core)
  {}

  lemma KeyKept(c: Coordinator, key: string, add: Option<KeyPolicy>)
    ensures Kept(c.core, ChangeKey(c, key, add).core)
  {
    var parsed := A.Parse(key);
    if parsed.Key? && Named(c, parsed.network).Some? {
      var d := Named(c, parsed.network).value;
      var r := if add.Some? then AddAuthKey(d.registry, key, add.value) else RemoveAuthKey(d.registry, key);
      SettingKept(c, parsed.network, d.(registry := r));
    }
  }

  lemma ConfigKept(c: Coordinator, op: Op)
    requires op.SetWhitelist? || op.SetAcl? || op.SetExitAllow?
    ensures Kept(c.core, Step(c, op).core)
  {
    if Named(c, op.name).Some? {
      var d := Named(c, op.name).value;
      var d' := if op.SetWhitelist? then d.(registry := d.registry.(whitelist := op.whitelist))
                else if op.SetAcl? then d.(aclEnabled := op.enabled)
                else d.(exitAllow := op.allow);
      SettingKept(c, op.name, d');
    }
  }

  lemma UnwrittenKept(c: Coordinator, op: Op)
    requires !Writes(c.core, op)
    ensures Kept(c.core, Step(c, op).core)
  {
    if op.Logged? {
      UnwrittenCommand(c.core, op.cmd, op.anchor, op.orders);
    } else if op.Heartbeat? {
      NothingDue(c.core, op.now);
    } else if op.AddKey? {
      KeyKept(c, op.key, Some(op.policy));
    } else if op.RemoveKey? {
      KeyKept(c, op.key, None);
    } else if op.SetWhitelist? || op.SetAcl? || op.SetExitAllow? {
      ConfigKept(c, op);
    }
  }

  /** What an operation that does not write leaves in memory, the file holds already. */
  lemma Unwritten(c: Coordinator, op: Op, x: Core)
    requires !Writes(c.core, op) && x == Step(c, op).core
    ensures Snapshot(x) == Snapshot(c.core) && x.nextNodeId == c.core.nextNodeId
  {
    UnwrittenKept(c, op);
    AlikeSnapshot(c.core, x);
  }

  // ----- reading the file back -----

  /** A configuration of these networks, with whatever settings. */
  ghost predicate NamesNets(ds: seq<Domain>, config: seq<NetConfig>) {
    |ds| == |config| && forall i :: 0 <= i < |ds| ==>
        ds[i].name == config[i].name && ds[i].registry.networkId == config[i].id
  }

  lemma ConfigureNet(c: Core, config: seq<NetConfig>, i: nat)
    requires CoreOk(c) && NamesNets(c.domains, config) && i < |config|
    ensures var d := ConfigureDomain(c.domains[i], config[i]);
            && ConfiguredNet(d, config[i]) && SavedAlike(c.domains[i], d) && SpentHome(d)
            && RegistryOk(d.registry, c.nextNodeId) && d.registry.pubkeys == c.domains[i].registry.pubkeys
  {
    assert RegistryOk(c.domains[i].registry, c.nextNodeId) && SpentHome(c.domains[i]);
    ConfigureGives(c.domains[i].registry, config[i].keys, config[i].whitelist);
  }

  lemma ConfigureKeeps(c: Core, config: seq<NetConfig>, x: Core)
    requires CoreOk(c) && NamesNets(c.domains, config) && x == Configure(c, config)
    ensures CoreOk(x) && Configured(x, config) && AllSavedAlike(c.domains, x.domains)
    ensures PubkeysApart(x.domains) <==> PubkeysApart(c.domains)
  {
    forall i | 0 <= i < |config|
      ensures ConfiguredNet(x.domains[i], config[i]) && SavedAlike(c.domains[i], x.domains[i])
              && SpentHome(x.domains[i])
      ensures RegistryOk(x.domains[i].registry, c.nextNodeId)
      ensures x.domains[i].registry.pubkeys == c.domains[i].registry.pubkeys
      ensures x.domains[i].registry.entries == c.domains[i].registry.entries
      ensures x.domains[i].name == c.domains[i].name
              && x.domains[i].registry.networkId == c.domains[i].registry.networkId
    {
      ConfigureNet(c, config, i);
    }
  }

  /** A restart into the saved networks gives what was saved under the new settings, unless a key lives in two. */
  lemma RestartGives(c: Core, config: seq<NetConfig>)
    requires CoreOk(c) && NamesNets(c.domains, config)
    ensures Recover(c, config).Restored? <==> PubkeysApart(c.domains)
    ensures Recover(c, config).Restored? ==> Recover(c, config).core == Configure(c, config)
  {
    var x := Configure(c, config);
    ConfigureKeeps(c, config, x);
    AlikeSnapshot(c, x);
    AcceptedExactly(x, config);
    if PubkeysApart(x.domains) { RestoreSnapshot(x, config); }
  }
}
