/** The registry of one network: who is registered, under which key, and which one-time keys are spent. */
module Registries {
  import opened Bytes
  import opened Prefixes

  type NodeId = nat
  type Pubkey = seq<byte>

  /** The log position an entry was issued at: index and term. */
  datatype Anchor = Anchor(index: nat, term: nat)

  /**
   * The signature over a node id, its public key and its anchor; other byte strings are not signatures of the signer.
   */
  datatype Binding = Signed(node: NodeId, pubkey: Pubkey, anchor: Anchor) | Foreign(bytes: seq<byte>)

  /** An announced route with what its text parses to. */
  datatype Route = Route(text: string, prefix: Option<Prefix>)

  datatype NodeEntry = NodeEntry(
    nodeId: NodeId, networkId: u32, pubkey: Pubkey, capabilities: u32, routes: seq<Route>,
    binding: Binding, anchor: Anchor)

  datatype KeyPolicy = OneTime | Reusable

  datatype RegisterError =
    InvalidAuthKey | PubkeyMismatch | RouteNotAllowed | BadRoute | AclCapabilityRequired

  datatype Registry = Registry(
    networkId: u32,
    entries: map<NodeId, NodeEntry>,
    pubkeys: map<Pubkey, NodeId>,
    authKeys: map<string, KeyPolicy>,
    consumed: set<string>,
    whitelist: seq<Prefix>)

  datatype Registered = NewNode(registry: Registry) | Existing(node: NodeId) | Rejected(error: RegisterError)

  function Empty(networkId: u32): Registry {
    Registry(networkId, map[], map[], map[], {}, [])
  }

  // ----- operations -----

  /** A spent one-time key stays spent. */
  function AddAuthKey(r: Registry, key: string, policy: KeyPolicy): Registry {
    if key in r.consumed then r else r.(authKeys := r.authKeys[key := policy])
  }

  function RemoveAuthKey(r: Registry, key: string): Registry {
    r.(authKeys := r.authKeys - {key})
  }

  predicate Allowed(r: Registry, p: Prefix) {
    CoveredBySome(p, r.whitelist)
  }

  /** The first route that is malformed or outside the whitelist decides. */
  function CheckRoutes(r: Registry, routes: seq<Route>): Option<RegisterError> {
    if routes == [] then None
    else if routes[0].prefix.None? then Some(BadRoute)
    else if !Allowed(r, routes[0].prefix.value) then Some(RouteNotAllowed)
    else CheckRoutes(r, routes[1..])
  }

  function MakeEntry(r: Registry, pubkey: Pubkey, capabilities: u32, routes: seq<Route>, node: NodeId,
      anchor: Anchor): NodeEntry {
    NodeEntry(node, r.networkId, pubkey, capabilities, routes, Signed(node, pubkey, anchor), anchor)
  }

  function Insert(r: Registry, e: NodeEntry): Registry {
    r.(entries := r.entries[e.nodeId := e], pubkeys := r.pubkeys[e.pubkey := e.nodeId])
  }

  function Spend(r: Registry, key: string): Registry {
    if key in r.authKeys && r.authKeys[key] == OneTime
    then r.(authKeys := r.authKeys - {key}, consumed := r.consumed + {key})
    else r
  }

  /** Admission: the key, then a known public key, then the routes, then a new entry under the given id. */
  function Register(r: Registry, key: string, pubkey: Pubkey, capabilities: u32, routes: seq<Route>, node: NodeId,
      anchor: Anchor): Registered {
    if key !in r.authKeys then Rejected(InvalidAuthKey)
    else if pubkey in r.pubkeys then
      var known := r.pubkeys[pubkey];
      if known in r.entries && r.entries[known].capabilities == capabilities && r.entries[known].routes == routes
      then Existing(known)
      else Rejected(PubkeyMismatch)
    else
      var bad := CheckRoutes(r, routes);
      if bad.Some? then Rejected(bad.value)
      else NewNode(Spend(Insert(r, MakeEntry(r, pubkey, capabilities, routes, node, anchor)), key))
  }

  function Revoke(r: Registry, node: NodeId): Registry {
    if node in r.entries then r.(entries := r.entries - {node}, pubkeys := r.pubkeys - {r.entries[node].pubkey}) else r
  }

  function InsertAll(r: Registry, entries: seq<NodeEntry>): Registry {
    if entries == [] then r else Insert(InsertAll(r, entries[..|entries| - 1]), entries[|entries| - 1])
  }

  /** Entries and spent keys replaced; the configured keys and the whitelist stay. */
  function Restore(r: Registry, entries: seq<NodeEntry>, consumed: set<string>): Registry {
    InsertAll(r.(entries := map[], pubkeys := map[]), entries).(consumed := consumed)
  }

  // ----- the invariant -----

  /** The public-key index is the exact inverse of the entries. */
  ghost predicate IndexOk(r: Registry) {
    && (forall pk :: pk in r.pubkeys ==> r.pubkeys[pk] in r.entries && r.entries[r.pubkeys[pk]].pubkey == pk)
    && (forall n :: n in r.entries ==> r.entries[n].pubkey in r.pubkeys && r.pubkeys[r.entries[n].pubkey] == n)
  }

  ghost predicate EntriesOk(r: Registry, next: NodeId) {
    forall n :: n in r.entries ==> 0 < n < next && r.entries[n].nodeId == n && r.entries[n].networkId == r.networkId
  }

  ghost predicate SpentGone(r: Registry) {
    forall k :: k in r.consumed ==> k !in r.authKeys
  }

  ghost predicate RegistryOk(r: Registry, next: NodeId) {
    IndexOk(r) && EntriesOk(r, next) && SpentGone(r)
  }

  lemma InsertOk(r: Registry, e: NodeEntry)
    requires IndexOk(r) && e.nodeId !in r.entries && e.pubkey !in r.pubkeys
    ensures IndexOk(Insert(r, e))
  {}

  lemma RegisterOk(r: Registry, key: string, pubkey: Pubkey, capabilities: u32, routes: seq<Route>, node: NodeId,
      anchor: Anchor)
    requires RegistryOk(r, node) && node > 0
    ensures var x := Register(r, key, pubkey, capabilities, routes, node, anchor);
            x.NewNode? ==> RegistryOk(x.registry, node + 1)
  {
    var e := MakeEntry(r, pubkey, capabilities, routes, node, anchor);
    if pubkey !in r.pubkeys { InsertOk(r, e); }
  }

  /** A known public key always has its entry, and a one-time key that admitted a node is spent. */
  lemma RegisterMeans(r: Registry, key: string, pubkey: Pubkey, capabilities: u32, routes: seq<Route>, node: NodeId,
      anchor: Anchor)
    requires RegistryOk(r, node) && node > 0
    ensures var x := Register(r, key, pubkey, capabilities, routes, node, anchor);
            && (x.Existing? ==> x.node in r.entries && r.entries[x.node].pubkey == pubkey
                                && r.entries[x.node].capabilities == capabilities && r.entries[x.node].routes == routes)
            && (x.NewNode? ==>
                && (forall n :: n in r.entries ==> r.entries[n].pubkey != pubkey)
                && x.registry.entries == r.entries[node := MakeEntry(r, pubkey, capabilities, routes, node, anchor)]
                && node !in r.entries
                && (r.authKeys[key] == OneTime ==> key in x.registry.consumed && key !in x.registry.authKeys)
                && (r.authKeys[key] == Reusable ==>
                    x.registry.authKeys == r.authKeys && x.registry.consumed == r.consumed)
                && forall i :: 0 <= i < |routes| ==> routes[i].prefix.Some? && Allowed(r, routes[i].prefix.value))
  {
    var x := Register(r, key, pubkey, capabilities, routes, node, anchor);
    if x.NewNode? { RoutesAllowed(r, routes); }
  }

  lemma {:induction false} RoutesAllowed(r: Registry, routes: seq<Route>)
    ensures CheckRoutes(r, routes).None? <==>
            forall i :: 0 <= i < |routes| ==> routes[i].prefix.Some? && Allowed(r, routes[i].prefix.value)
  {
    if routes != [] {
      RoutesAllowed(r, routes[1..]);
      assert routes == [routes[0]] + routes[1..];
      assert forall i :: 0 <= i < |routes[1..]| ==> routes[1..][i] == routes[i + 1];
    }
  }

  /** Every route is well formed and inside one whitelisted block. */
  predicate RoutesWithin(r: Registry, routes: seq<Route>) {
    forall i :: 0 <= i < |routes| ==> routes[i].prefix.Some? && WithinSome(routes[i].prefix.value, r.whitelist)
  }

  predicate SomeStranded(r: Registry, routes: seq<Route>) {
    exists i :: 0 <= i < |routes| && routes[i].prefix.Some? && Stranded(routes[i].prefix.value, r.whitelist)
  }

  /** Routes inside the whitelist are exactly those accepted, unless one is a single address that only `::/0` covers. */
  lemma RoutesExactly(r: Registry, routes: seq<Route>)
    ensures (CheckRoutes(r, routes).None? <==> RoutesWithin(r, routes))
       <==> !(RoutesWithin(r, routes) && SomeStranded(r, routes))
    ensures CheckRoutes(r, routes).None? <==> RoutesWithin(r, routes) && !SomeStranded(r, routes)
  {
    RoutesAllowed(r, routes);
    forall i | 0 <= i < |routes| && routes[i].prefix.Some?
      ensures var p := routes[i].prefix.value;
              Allowed(r, p) <==> WithinSome(p, r.whitelist) && !Stranded(p, r.whitelist)
    {
      CoveredExactly(routes[i].prefix.value, r.whitelist);
    }
  }

  lemma RevokeOk(r: Registry, node: NodeId, next: NodeId)
    requires RegistryOk(r, next)
    ensures RegistryOk(Revoke(r, node), next) && Revoke(r, node).entries == r.entries - {node}
  {}

  // ----- restoring -----

  /** Pairwise different ids and public keys. */
  ghost predicate Distinct(entries: seq<NodeEntry>) {
    forall i, j :: 0 <= i < j < |entries| ==>
        entries[i].nodeId != entries[j].nodeId && entries[i].pubkey != entries[j].pubkey
  }

  /** A listing of the entries, each once. */
  ghost predicate Listing(entries: seq<NodeEntry>, m: map<NodeId, NodeEntry>) {
    && (forall i :: 0 <= i < |entries| ==> entries[i].nodeId in m && m[entries[i].nodeId] == entries[i])
    && (forall n :: n in m ==> m[n] in entries)
  }

  lemma {:induction false} InsertAllFrame(r: Registry, entries: seq<NodeEntry>)
    ensures var x := InsertAll(r, entries);
            x.networkId == r.networkId && x.authKeys == r.authKeys && x.whitelist == r.whitelist
  {
    if entries != [] { InsertAllFrame(r, entries[..|entries| - 1]); }
  }

  lemma InsertListing(r: Registry, entries: seq<NodeEntry>, e: NodeEntry)
    requires Listing(entries, r.entries) && IndexOk(r) && Distinct(entries + [e])
    ensures Listing(entries + [e], Insert(r, e).entries) && IndexOk(Insert(r, e))
  {
    var all := entries + [e];
    forall n | n in r.entries ensures n != e.nodeId && r.entries[n].pubkey != e.pubkey {
      var i :| 0 <= i < |entries| && entries[i] == r.entries[n];
      assert all[i] == entries[i] && all[|entries|] == e;
    }
    InsertOk(r, e);
  }

  lemma {:induction false} InsertAllKeeps(r: Registry, entries: seq<NodeEntry>)
    requires r.entries == map[] && r.pubkeys == map[] && Distinct(entries)
    ensures IndexOk(InsertAll(r, entries)) && Listing(entries, InsertAll(r, entries).entries)
  {
    if entries != [] {
      var front, e := entries[..|entries| - 1], entries[|entries| - 1];
      assert entries == front + [e];
      InsertAllKeeps(r, front);
      InsertListing(InsertAll(r, front), front, e);
    }
  }

  /** Restoring a listing of the entries gives them back with the index. */
  lemma RestoreGives(r: Registry, entries: seq<NodeEntry>, consumed: set<string>, m: map<NodeId, NodeEntry>)
    requires Distinct(entries) && Listing(entries, m) && forall n :: n in m ==> m[n].nodeId == n
    ensures var x := Restore(r, entries, consumed);
            && x.entries == m && IndexOk(x) && x.consumed == consumed
            && x.networkId == r.networkId && x.authKeys == r.authKeys && x.whitelist == r.whitelist
  {
    var blank := r.(entries := map[], pubkeys := map[]);
    InsertAllKeeps(blank, entries);
    InsertAllFrame(blank, entries);
    InsertAllIds(blank, entries);
    SameListing(entries, InsertAll(blank, entries).entries, m);
  }

  lemma {:induction false} InsertAllIds(r: Registry, entries: seq<NodeEntry>)
    requires r.entries == map[]
    ensures forall n :: n in InsertAll(r, entries).entries ==> InsertAll(r, entries).entries[n].nodeId == n
  {
    if entries != [] { InsertAllIds(r, entries[..|entries| - 1]); }
  }

  lemma SameListing(entries: seq<NodeEntry>, a: map<NodeId, NodeEntry>, b: map<NodeId, NodeEntry>)
    requires Listing(entries, a) && Listing(entries, b)
    requires forall n :: n in a ==> a[n].nodeId == n
    requires forall n :: n in b ==> b[n].nodeId == n
    ensures a == b
  {
    forall n | n in a ensures n in b && b[n] == a[n] { assert a[n] in entries; }
    forall n | n in b ensures n in a { assert b[n] in entries; }
  }

  /** An index is determined by the entries it inverts. */
  lemma IndexUnique(a: Registry, b: Registry)
    requires IndexOk(a) && IndexOk(b) && a.entries == b.entries
    ensures a.pubkeys == b.pubkeys
  {
    forall pk | pk in a.pubkeys ensures pk in b.pubkeys && b.pubkeys[pk] == a.pubkeys[pk] {
      assert b.entries[a.pubkeys[pk]].pubkey == pk;
    }
    forall pk | pk in b.pubkeys ensures pk in a.pubkeys { assert a.entries[b.pubkeys[pk]].pubkey == pk; }
  }

  // ----- the registry as an object -----

  class RegistryObject {
    var entries: map<NodeId, NodeEntry>
    var pubkeys: map<Pubkey, NodeId>
    var authKeys: map<string, KeyPolicy>
    var consumed: seq<string>
    var whitelist: seq<Prefix>
    const networkId: u32

    function Value(): Registry
      reads this
    {
      Registry(networkId, entries, pubkeys, authKeys, (set k | k in consumed), whitelist)
    }

    constructor (networkId: u32)
      ensures Value() == Empty(networkId)
    {
      this.networkId := networkId;
      entries, pubkeys, authKeys, consumed, whitelist := map[], map[], map[], [], [];
    }

    method AddKey(key: string, policy: KeyPolicy)
      modifies this`authKeys
      ensures Value() == AddAuthKey(old(Value()), key, policy)
    {
      if key !in consumed { authKeys := authKeys[key := policy]; }
    }

    /** Looks at the routes one by one. */
    method FirstBadRoute(routes: seq<Route>) returns (bad: Option<RegisterError>)
      ensures bad == CheckRoutes(Value(), routes)
    {
      for i := 0 to |routes|
        invariant CheckRoutes(Value(), routes) == CheckRoutes(Value(), routes[i..])
      {
        assert routes[i..][0] == routes[i] && routes[i..][1..] == routes[i + 1..];
        if routes[i].prefix.None? { return Some(BadRoute); }
        if !Allowed(Value(), routes[i].prefix.value) { return Some(RouteNotAllowed); }
      }
      bad := None;
    }

    method Admit(key: string, pubkey: Pubkey, capabilities: u32, routes: seq<Route>, node: NodeId, anchor: Anchor)
      returns (r: Registered)
      requires RegistryOk(Value(), node) && node > 0
      modifies this`entries, this`pubkeys, this`authKeys, this`consumed
      ensures r == Register(old(Value()), key, pubkey, capabilities, routes, node, anchor)
      ensures Value() == if r.NewNode? then r.registry else old(Value())
      ensures RegistryOk(Value(), node + 1)
    {
      RegisterOk(Value(), key, pubkey, capabilities, routes, node, anchor);
      if key !in authKeys { return Rejected(InvalidAuthKey); }
      if pubkey in pubkeys {
        var known := pubkeys[pubkey];
        if entries[known].capabilities == capabilities && entries[known].routes == routes { return Existing(known); }
        return Rejected(PubkeyMismatch);
      }
      var bad := FirstBadRoute(routes);
      if bad.Some? { return Rejected(bad.value); }
      Store(key, MakeEntry(Value(), pubkey, capabilities, routes, node, anchor));
      r := NewNode(Value());
    }

    method Store(key: string, e: NodeEntry)
      requires key in authKeys
      modifies this`entries, this`pubkeys, this`authKeys, this`consumed
      ensures Value() == Spend(Insert(old(Value()), e), key)
    {
      entries := entries[e.nodeId := e];
      pubkeys := pubkeys[e.pubkey := e.nodeId];
      if authKeys[key] == OneTime {
        authKeys := authKeys - {key};
        consumed := consumed + [key];
      }
    }

    method Remove(node: NodeId)
      modifies this`entries, this`pubkeys
      ensures Value() == Revoke(old(Value()), node)
    {
      if node in entries {
        pubkeys := pubkeys - {entries[node].pubkey};
        entries := entries - {node};
      }
    }

    method RestoreFrom(list: seq<NodeEntry>, spent: seq<string>)
      modifies this`entries, this`pubkeys, this`consumed
      ensures Value() == Restore(old(Value()), list, set k | k in spent)
    {
      entries, pubkeys := map[], map[];
      ghost var blank := Value();
      for i := 0 to |list|
        invariant Value() == InsertAll(blank, list[..i]) && consumed == old(consumed)
      {
        assert list[..i + 1][..i] == list[..i];
        pubkeys := pubkeys[list[i].pubkey := list[i].nodeId];
        entries := entries[list[i].nodeId := list[i]];
      }
      assert list[..|list|] == list;
      consumed := spent;
    }
  }
}
