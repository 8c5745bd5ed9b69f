/** Saving and restoring the replicated core, and applying the configuration to it. */
module Persistence {
  import opened Bytes
  import opened Prefixes
  import opened Registries
  import opened CoordCore
  import A = AuthKey
  import D = Directory
  import K = KeyRotation
  import P = PathModel

  datatype SavedPaths = SavedPaths(sets: map<P.Pair, P.PathSet>, lastId: nat)

  /** What is written to disk; tables of networks are keyed by network id. */
  datatype CoordState = CoordState(
    nextNodeId: NodeId,
    nodes: seq<NodeEntry>,
    consumed: set<string>,
    keyVersions: map<u32, nat>,
    pathMaps: map<u32, SavedPaths>,
    rosters: map<u32, seq<NodeId>>,
    pendings: map<u32, nat>,
    endpoints: map<NodeId, D.Endpoints>,
    revoked: map<NodeId, Anchor>)

  // ----- the snapshot -----

  /** The entries with ids below a bound, sorted by id. */
  function NodesBelow(ds: seq<Domain>, bound: NodeId): seq<NodeEntry> {
    if bound == 0 then []
    else
      var i := FindNode(ds, bound - 1);
      NodesBelow(ds, bound - 1) + if i == |ds| then [] else [ds[i].registry.entries[bound - 1]]
  }

  function Ids(ds: seq<Domain>): (r: set<u32>)
    ensures forall x :: x in r <==> FindId(ds, x) < |ds|
  {
    if ds == [] then {} else Ids(ds[..|ds| - 1]) + {ds[|ds| - 1].registry.networkId}
  }

  function AllConsumed(ds: seq<Domain>): (r: set<string>)
    ensures forall k :: k in r <==> exists i :: 0 <= i < |ds| && k in ds[i].registry.consumed
  {
    if ds == [] then {}
    else
      var front := ds[..|ds| - 1];
      assert forall i :: 0 <= i < |front| ==> front[i] == ds[i];
      AllConsumed(front) + ds[|ds| - 1].registry.consumed
  }

  function Snapshot(c: Core): CoordState {
    var ds := c.domains;
    CoordState(
      c.nextNodeId,
      NodesBelow(ds, c.nextNodeId),
      AllConsumed(ds),
      map id | id in Ids(ds) :: ds[FindId(ds, id)].keys.version,
      map id | id in Ids(ds) :: SavedPaths(ds[FindId(ds, id)].table.sets, ds[FindId(ds, id)].table.lastId),
      map id | id in Ids(ds) :: ds[FindId(ds, id)].table.relays,
      map id | id in Ids(ds) && ds[FindId(ds, id)].keys.pending.Some? :: ds[FindId(ds, id)].keys.pending.value,
      c.endpoints,
      c.revoked)
  }

  // ----- restoring -----

  datatype StoreError = BadAllocator | DuplicateNode | DuplicatePubkey | UnknownNetwork | MissingKeyVersion

  datatype Restored = Restored(core: Core) | Inconsistent(error: StoreError)

  function MaxNode(nodes: seq<NodeEntry>): (r: NodeId)
    ensures forall i :: 0 <= i < |nodes| ==> nodes[i].nodeId <= r
    ensures r == 0 || exists i :: 0 <= i < |nodes| && nodes[i].nodeId == r
  {
    if nodes == [] then 0
    else
      var m, last := MaxNode(nodes[..|nodes| - 1]), nodes[|nodes| - 1].nodeId;
      if last > m then last else m
  }

  predicate HasNode(nodes: seq<NodeEntry>, node: NodeId) {
    exists i :: 0 <= i < |nodes| && nodes[i].nodeId == node
  }

  predicate HasPubkey(nodes: seq<NodeEntry>, pubkey: Pubkey) {
    exists i :: 0 <= i < |nodes| && nodes[i].pubkey == pubkey
  }

  /** The first entry that repeats an id or a public key or belongs to no configured network. */
  function CheckNodes(ds: seq<Domain>, nodes: seq<NodeEntry>): Option<StoreError> {
    if nodes == [] then None
    else
      var front, last := nodes[..|nodes| - 1], nodes[|nodes| - 1];
      var e := CheckNodes(ds, front);
      if e.Some? then e
      else if HasNode(front, last.nodeId) then Some(DuplicateNode)
      else if HasPubkey(front, last.pubkey) then Some(DuplicatePubkey)
      else if FindId(ds, last.networkId) == |ds| then Some(UnknownNetwork)
      else None
  }

  function Filter(nodes: seq<NodeEntry>, id: u32): seq<NodeEntry> {
    if nodes == [] then []
    else
      var front, last := Filter(nodes[..|nodes| - 1], id), nodes[|nodes| - 1];
      if last.networkId == id then front + [last] else front
  }

  /** Spent keys return to the network they name. */
  function HomeKeys(consumed: set<string>, name: string): set<string> {
    set k | k in consumed && A.Parse(k).Key? && A.Parse(k).network == name
  }

  function RestoreDomain(d: Domain, s: CoordState): Domain
    requires d.registry.networkId in s.keyVersions
  {
    var id := d.registry.networkId;
    d.(registry := Restore(d.registry, Filter(s.nodes, id), HomeKeys(s.consumed, d.name)),
       keys := K.Keys(s.keyVersions[id], if id in s.pendings then Some(s.pendings[id]) else d.keys.pending),
       table := P.Table(if id in s.pathMaps then s.pathMaps[id].sets else d.table.sets,
                        if id in s.pathMaps then s.pathMaps[id].lastId else d.table.lastId,
                        if id in s.rosters then s.rosters[id] else d.table.relays))
  }

  predicate VersionsKnown(ds: seq<Domain>, s: CoordState) {
    forall i :: 0 <= i < |ds| ==> ds[i].registry.networkId in s.keyVersions
  }

  function RestoreDomains(ds: seq<Domain>, s: CoordState): (r: seq<Domain>)
    requires VersionsKnown(ds, s)
    ensures |r| == |ds| && forall i :: 0 <= i < |ds| ==> r[i] == RestoreDomain(ds[i], s)
  {
    if ds == [] then []
    else
      assert VersionsKnown(ds[..|ds| - 1], s);
      RestoreDomains(ds[..|ds| - 1], s) + [RestoreDomain(ds[|ds| - 1], s)]
  }

  /** Fails rather than guesses: the allocator, the node table and the key versions must all be consistent. */
  function RestoreState(c: Core, s: CoordState): Restored {
    if s.nextNodeId == 0 || s.nextNodeId <= MaxNode(s.nodes) then Inconsistent(BadAllocator)
    else
      var e := CheckNodes(c.domains, s.nodes);
      if e.Some? then Inconsistent(e.value)
      else if !VersionsKnown(c.domains, s) then Inconsistent(MissingKeyVersion)
      else Restored(Core(RestoreDomains(c.domains, s), s.nextNodeId, s.endpoints, s.revoked))
  }

  // ----- configuration -----

  datatype NetConfig = NetConfig(
    name: string, id: u32, keys: seq<(string, KeyPolicy)>, whitelist: seq<Prefix>, aclEnabled: bool, exits: set<NodeId>)

  function FreshDomain(net: NetConfig): Domain {
    Domain(net.name, Empty(net.id), K.FRESH, P.Table(map[], 0, []), false, {})
  }

  function FreshDomains(config: seq<NetConfig>): (ds: seq<Domain>)
    ensures |ds| == |config| && forall i :: 0 <= i < |config| ==> ds[i] == FreshDomain(config[i])
  {
    if config == [] then [] else FreshDomains(config[..|config| - 1]) + [FreshDomain(config[|config| - 1])]
  }

  function Fresh(config: seq<NetConfig>): Core {
    Core(FreshDomains(config), 1, map[], map[])
  }

  function AddKeys(r: Registry, keys: seq<(string, KeyPolicy)>): Registry {
    if keys == [] then r
    else AddAuthKey(AddKeys(r, keys[..|keys| - 1]), keys[|keys| - 1].0, keys[|keys| - 1].1)
  }

  predicate Mentions(keys: seq<(string, KeyPolicy)>, key: string) {
    exists i :: 0 <= i < |keys| && keys[i].0 == key
  }

  /** The listed keys are added, all others removed. */
  function ConfigureRegistry(r: Registry, keys: seq<(string, KeyPolicy)>, whitelist: seq<Prefix>): Registry {
    var x := AddKeys(r, keys);
    x.(authKeys := map k | k in x.authKeys && Mentions(keys, k) :: x.authKeys[k], whitelist := whitelist)
  }

  function ConfigureDomain(d: Domain, net: NetConfig): Domain {
    d.(registry := ConfigureRegistry(d.registry, net.keys, net.whitelist), aclEnabled := net.aclEnabled,
        exitAllow := net.exits)
  }

  function ConfigureDomains(ds: seq<Domain>, config: seq<NetConfig>): (r: seq<Domain>)
    requires |ds| == |config|
    ensures |r| == |ds| && forall i :: 0 <= i < |ds| ==> r[i] == ConfigureDomain(ds[i], config[i])
  {
    if ds == [] then []
    else ConfigureDomains(ds[..|ds| - 1],
        config[..|config| - 1]) + [ConfigureDomain(ds[|ds| - 1], config[|config| - 1])]
  }

  function Configure(c: Core, config: seq<NetConfig>): Core
    requires |c.domains| == |config|
  {
    c.(domains := ConfigureDomains(c.domains, config))
  }

  /** A restart: restore what was saved into fresh networks, then configure them. */
  function Recover(c: Core, config: seq<NetConfig>): (r: Restored)
    ensures r.Restored? ==> |r.core.domains| == |config|
  {
    var x := RestoreState(Fresh(config), Snapshot(c));
    if x.Inconsistent? then x else Restored(Configure(x.core, config))
  }

  /** The keys a configuration gives when some are spent. */
  function LiveKeys(consumed: set<string>, keys: seq<(string, KeyPolicy)>): (m: map<string, KeyPolicy>)
    ensures forall k :: k in m ==> k !in consumed && Mentions(keys, k)
  {
    if keys == [] then map[]
    else
      var m, (k, p) := LiveKeys(consumed, keys[..|keys| - 1]), keys[|keys| - 1];
      assert keys[|keys| - 1].0 == k;
      if k in consumed then m else m[k := p]
  }

  lemma {:induction false} AddKeysGives(r: Registry, keys: seq<(string, KeyPolicy)>)
    ensures AddKeys(r, keys) == r.(authKeys := r.authKeys + LiveKeys(r.consumed, keys))
  {
    if keys != [] {
      AddKeysGives(r, keys[..|keys| - 1]);
      var (k, p) := keys[|keys| - 1];
      var m := LiveKeys(r.consumed, keys[..|keys| - 1]);
      assert (r.authKeys + m)[k := p] == r.authKeys + m[k := p];
    } else {
      assert r.authKeys + map[] == r.authKeys;
    }
  }

  lemma {:induction false} LiveKeysAll(consumed: set<string>, keys: seq<(string, KeyPolicy)>, k: string)
    requires Mentions(keys, k) && k !in consumed
    ensures k in LiveKeys(consumed, keys)
  {
    var i :| 0 <= i < |keys| && keys[i].0 == k;
    if keys[|keys| - 1].0 != k {
      assert keys[..|keys| - 1][i].0 == k;
      LiveKeysAll(consumed, keys[..|keys| - 1], k);
    }
  }

  /** After configuring, the keys are the listed ones that are not spent, whatever was there before. */
  lemma ConfigureGives(r: Registry, keys: seq<(string, KeyPolicy)>, whitelist: seq<Prefix>)
    requires SpentGone(r)
    ensures ConfigureRegistry(r, keys, whitelist) == r.(authKeys := LiveKeys(r.consumed, keys), whitelist := whitelist)
  {
    AddKeysGives(r, keys);
    var live := LiveKeys(r.consumed, keys);
    forall k | k in r.authKeys && Mentions(keys, k) ensures k in live { LiveKeysAll(r.consumed, keys, k); }
  }

  lemma {:induction false} LiveKeysSpend(consumed: set<string>, keys: seq<(string, KeyPolicy)>, k: string)
    ensures LiveKeys(consumed + {k}, keys) == LiveKeys(consumed, keys) - {k}
  {
    if keys != [] { LiveKeysSpend(consumed, keys[..|keys| - 1], k); }
  }
}
