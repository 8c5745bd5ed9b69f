/** A log after which two replicas hold the same paths under different ids. */
module PathIdSplit {
  import opened Bytes
  import opened NetworkIds
  import opened Registries
  import opened CoordCore
  import opened Persistence
  import opened Machine
  import opened CoordPaths
  import opened Replicas
  import A = AuthKey
  import D = PathDivergence
  import N = NetworkDomain
  import O = PathOrder
  import P = PathModel
  import R = PathReplay
  import M = PathMirror

  // ----- the paths -----

  const HERE: P.Pair := P.Pair(1, 2)
  const THERE: P.Pair := P.Pair(3, 4)

  /** Two pairs, each with its direct path. */
  function TwoPairs(): P.Table {
    P.Table(map[HERE := P.PathSet(1, [P.Direct(1, 2, 0)], 2), THERE := P.PathSet(1, [P.Direct(2, 4, 0)], 2)], 2, [])
  }

  function OnePair(): P.Table {
    P.Table(map[HERE := P.PathSet(1, [P.Direct(1, 2, 0)], 2)], 1, [])
  }

  lemma TwoRequests()
    ensures PathStep(M.EMPTY, N.RequestPaths(HERE, 2, 0)) == OnePair()
    ensures PathStep(OnePair(), N.RequestPaths(THERE, 2, 0)) == TwoPairs()
  {
    N.OneCall(M.EMPTY, M.RequestOp(HERE, 2, 0));
    N.OneCall(OnePair(), M.RequestOp(THERE, 2, 0));
  }

  /** A pair with only its direct path takes an id for the first relay. */
  lemma TakesOne(t: P.Table, p: P.Pair, id: nat)
    requires p in t.sets && t.sets[p] == P.PathSet(1, [P.Direct(id, p.dest, 0)], 2)
    requires t.relays == [5] && p.source != 5 && p.dest != 5
    ensures O.Need(t, p, 0) == 1
  {
    var ps, cs := t.sets[p], [P.Direct(id, p.dest, 0)];
    assert P.Usable([5], p) == [5] by { assert [5][1..] == []; }
    assert cs[..0] == [];
    assert P.DirectOnly(cs) == cs && P.KeptRelays(cs, [5]) == [];
    assert P.KeptCandidates(ps, [5], p.dest, 0, 0) == cs;
    assert !P.HasFirstHop(cs, 5);
    assert P.Missing(cs, [5]) by { assert [5][0] == 5; }
    assert [5][1..] == [];
  }

  lemma TwoTakers(t: P.Table)
    requires t == TwoPairs()
    ensures !D.OneTaker(R.Narrowed(t, [5]), 0)
  {
    var m := R.Narrowed(t, [5]);
    assert m == t.(relays := [5]);
    TakesOne(m, HERE, 1);
    TakesOne(m, THERE, 2);
  }

  // ----- the log -----

  function Net(name: string, key: string): NetConfig {
    NetConfig(name, NetworkId(name), [(key, Reusable)], [], false, {})
  }

  function Pk(n: nat): (r: Pubkey)
    ensures |r| == n
  {
    if n == 0 then [] else Pk(n - 1) + [0]
  }

  function Joining(key: string, n: nat): Command {
    Register(key, Pk(n), 0, [], 0)
  }

  function Log(key: string, id: u32): seq<Entry> {
    [Entry(0, Normal(Joining(key, 1))), Entry(0, Normal(Joining(key, 2))),
     Entry(0, Normal(Joining(key, 3))), Entry(0, Normal(Joining(key, 4))),
     Entry(0, Normal(RequestPaths(1, 2, 2, 0))), Entry(0, Normal(RequestPaths(3, 4, 2, 0))),
     Entry(0, Normal(SetRelayRoster(id, [5], 0)))]
  }

  /** Four registrations and two requests. */
  ghost predicate Asks(log: seq<Entry>, key: string) {
    && |log| >= 6
    && log[0].payload == Normal(Joining(key, 1)) && log[1].payload == Normal(Joining(key, 2))
    && log[2].payload == Normal(Joining(key, 3)) && log[3].payload == Normal(Joining(key, 4))
    && log[4].payload == Normal(RequestPaths(1, 2, 2, 0)) && log[5].payload == Normal(RequestPaths(3, 4, 2, 0))
  }

  /** n nodes joined with the key, each with a public key as long as its id. */
  ghost predicate HasNodes(r: Registry, key: string, n: nat) {
    && key in r.authKeys && r.authKeys[key] == Reusable
    && (forall k :: 1 <= k <= n ==> k in r.entries)
    && (forall k :: k in r.entries ==> |r.entries[k].pubkey| == k)
  }

  ghost predicate Joined(c: Core, name: string, key: string, n: nat, t: P.Table) {
    && |c.domains| == 1 && c.nextNodeId == n + 1
    && c.domains[0].name == name && c.domains[0].registry.networkId == NetworkId(name) && c.domains[0].table == t
    && !c.domains[0].aclEnabled && HasNodes(c.domains[0].registry, key, n)
  }

  ghost predicate KeyFor(key: string, name: string) {
    A.ValidNetwork(name) && A.Parse(key).Key? && A.Parse(key).network == name && A.Parse(key).expiry == 0
  }

  lemma NobodyYet(name: string, key: string)
    requires KeyFor(key, name)
    ensures ConfigOk([Net(name, key)])
    ensures Joined(Configure(Fresh([Net(name, key)]), [Net(name, key)]), name, key, 0, M.EMPTY)
  {
    var net := Net(name, key);
    assert NetOk(net);
    StartOk([net]);
    ConfigureGives(Empty(net.id), net.keys, net.whitelist);
    assert net.keys[0].0 == key && net.keys[..0] == [];
    assert LiveKeys({}, net.keys) == map[key := Reusable];
  }

  lemma LetsIn(c: Core, name: string, key: string, n: nat, t: P.Table, anchor: Anchor)
    requires CoreOk(c) && KeyFor(key, name) && Joined(c, name, key, n, t)
    ensures RegisterNode(c, Joining(key, n + 1), anchor).reply.Admitted?
  {
    var cmd := Joining(key, n + 1);
    assert RegistryOk(c.domains[0].registry, c.nextNodeId);
    assert AdmissibleIn(c.domains[0], cmd);
    AdmittedExactly(c, cmd, anchor);
  }

  lemma HasOneMore(r: Registry, key: string, n: nat, next: nat, anchor: Anchor, r': Registry)
    requires HasNodes(r, key, n) && next == n + 1 && NewEntry(r, Joining(key, next), anchor, next, r')
    ensures HasNodes(r', key, next)
  {
    var e := MakeEntry(r, Pk(next), 0, [], next, anchor);
    assert |e.pubkey| == next;
  }

  lemma NewNodeJoined(c: Core, name: string, key: string, n: nat, t: P.Table, anchor: Anchor, i: nat, x: Core)
    requires Joined(c, name, key, n, t) && AdmittedAt(c, Joining(key, n + 1), anchor, i, x)
    ensures Joined(x, name, key, n + 1, t)
  {
    HasOneMore(c.domains[0].registry, key, n, n + 1, anchor, x.domains[0].registry);
  }

  lemma OneMore(c: Core, name: string, key: string, n: nat, t: P.Table, anchor: Anchor, orders: Orders)
    requires CoreOk(c) && KeyFor(key, name) && Joined(c, name, key, n, t)
    ensures Joined(ApplyCommand(c, Joining(key, n + 1), anchor, orders), name, key, n + 1, t)
  {
    LetsIn(c, name, key, n, t, anchor);
    var i := RegisterShape(c, Joining(key, n + 1), anchor);
    NewNodeJoined(c, name, key, n, t, anchor, i, RegisterNode(c, Joining(key, n + 1), anchor).core);
  }

  lemma Requested(c: Core, name: string, key: string, pair: P.Pair, t: P.Table, t': P.Table, anchor: Anchor,
      orders: Orders)
    requires CoreOk(c) && Joined(c, name, key, 4, t) && 1 <= pair.source <= 4 && 1 <= pair.dest <= 4
    requires t' == PathStep(t, N.RequestPaths(pair, 2, 0))
    ensures Joined(ApplyCommand(c, RequestPaths(pair.source, pair.dest, 2, 0), anchor, orders), name, key, 4, t')
  {
    HomeOf(c, pair.source);
    HomeOf(c, pair.dest);
  }

  lemma JoinedNext(name: string, key: string, n: nat, next: nat, c: Core, e: Entry, orders: Orders, x: Core)
    requires CoreOk(c) && KeyFor(key, name) && Joined(c, name, key, n, M.EMPTY) && next == n + 1
    requires e.payload == Normal(Joining(key, next)) && x == ApplyEntry(c, e, n, orders)
    ensures Joined(x, name, key, next, M.EMPTY)
  {
    OneMore(c, name, key, n, M.EMPTY, Anchor(n, e.term), orders);
  }

  lemma FoldOnto(config: seq<NetConfig>, log: seq<Entry>, m: nat, n: nat, orders: seq<Orders>, e: Entry, o: Orders,
      b: Core, c: Core)
    requires 0 < n <= |log| && n <= |orders| && m == n - 1 && e == log[m] && o == orders[m]
    requires b == Fold(config, log, m, orders) && c == Fold(config, log, n, orders)
    ensures c == ApplyEntry(b, e, m, o)
  {}

  lemma FoldJoined(name: string, key: string, config: seq<NetConfig>, log: seq<Entry>, m: nat, n: nat,
      orders: seq<Orders>, e: Entry, o: Orders, b: Core, c: Core)
    requires KeyFor(key, name) && CoreOk(b) && n <= |log| && n <= |orders| && n == m + 1
    requires e == log[m] && o == orders[m] && e.payload == Normal(Joining(key, n))
    requires b == Fold(config, log, m, orders) && c == Fold(config, log, n, orders)
    requires Joined(b, name, key, m, M.EMPTY)
    ensures Joined(c, name, key, n, M.EMPTY)
  {
    FoldOnto(config, log, m, n, orders, e, o, b, c);
    JoinedNext(name, key, m, n, b, e, o, c);
  }

  lemma JoinedOn(name: string, key: string, config: seq<NetConfig>, log: seq<Entry>, m: nat, n: nat,
      orders: seq<Orders>, b: Core, c: Core)
    requires KeyFor(key, name) && ConfigOk(config) && n <= |log| && n <= |orders| && n == m + 1
    requires log[m].payload == Normal(Joining(key, n))
    requires b == Fold(config, log, m, orders) && c == Fold(config, log, n, orders)
    requires Joined(b, name, key, m, M.EMPTY)
    ensures Joined(c, name, key, n, M.EMPTY)
  {
    FoldOk(config, log, m, orders);
    FoldJoined(name, key, config, log, m, n, orders, log[m], orders[m], b, c);
  }

  lemma AllJoined(name: string, key: string, config: seq<NetConfig>, log: seq<Entry>, orders: seq<Orders>)
    requires KeyFor(key, name) && config == [Net(name, key)] && Asks(log, key) && |orders| >= 6
    ensures Joined(Fold(config, log, 4, orders), name, key, 4, M.EMPTY)
  {
    NobodyYet(name, key);
    var c0, c1, c2 := Fold(config, log, 0, orders), Fold(config, log, 1, orders), Fold(config, log, 2, orders);
    var c3, c4 := Fold(config, log, 3, orders), Fold(config, log, 4, orders);
    JoinedOn(name, key, config, log, 0, 1, orders, c0, c1);
    JoinedOn(name, key, config, log, 1, 2, orders, c1, c2);
    JoinedOn(name, key, config, log, 2, 3, orders, c2, c3);
    JoinedOn(name, key, config, log, 3, 4, orders, c3, c4);
  }

  lemma RequestedNext(name: string, key: string, pair: P.Pair, t: P.Table, t': P.Table, c: Core, e: Entry, n: nat,
      orders: Orders)
    requires CoreOk(c) && Joined(c, name, key, 4, t) && 1 <= pair.source <= 4 && 1 <= pair.dest <= 4
    requires t' == PathStep(t, N.RequestPaths(pair, 2, 0))
    requires e.payload == Normal(RequestPaths(pair.source, pair.dest, 2, 0))
    ensures Joined(ApplyEntry(c, e, n, orders), name, key, 4, t')
  {
    Requested(c, name, key, pair, t, t', Anchor(n, e.term), orders);
  }

  lemma FirstRequested(name: string, key: string, config: seq<NetConfig>, log: seq<Entry>, orders: seq<Orders>, c: Core)
    requires KeyFor(key, name) && config == [Net(name, key)] && Asks(log, key) && |orders| >= 6
    requires c == Fold(config, log, 5, orders)
    ensures Joined(c, name, key, 4, OnePair())
  {
    var b := Fold(config, log, 4, orders);
    AllJoined(name, key, config, log, orders);
    TwoRequests();
    NobodyYet(name, key);
    FoldOk(config, log, 4, orders);
    RequestedNext(name, key, HERE, M.EMPTY, OnePair(), b, log[4], 4, orders[4]);
    FoldOnto(config, log, 4, 5, orders, log[4], orders[4], b, c);
  }

  lemma BothRequested(name: string, key: string, config: seq<NetConfig>, log: seq<Entry>, orders: seq<Orders>, c: Core)
    requires KeyFor(key, name) && config == [Net(name, key)] && Asks(log, key) && |orders| >= 6
    requires c == Fold(config, log, 6, orders)
    ensures Joined(c, name, key, 4, TwoPairs())
  {
    var b := Fold(config, log, 5, orders);
    FirstRequested(name, key, config, log, orders, b);
    TwoRequests();
    NobodyYet(name, key);
    FoldOk(config, log, 5, orders);
    RequestedNext(name, key, THERE, OnePair(), TwoPairs(), b, log[5], 5, orders[5]);
    FoldOnto(config, log, 5, 6, orders, log[5], orders[5], b, c);
  }

  // ----- two replicas -----

  lemma {:induction false} NoPassesListed(config: seq<NetConfig>, log: seq<Entry>, n: nat, orders: seq<Orders>)
    requires n <= |log| && n <= |orders|
    requires forall i :: 0 <= i < n && log[i].payload.Normal? ==>
               !log[i].payload.cmd.Revoke? && !log[i].payload.cmd.SetRelayRoster?
    ensures AllListed(config, log, n, orders)
  {
    if n > 0 { NoPassesListed(config, log, n - 1, orders); }
  }

  lemma RosterDiverges(c: Core, name: string, key: string, cmd: Command)
    requires Joined(c, name, key, 4, TwoPairs()) && cmd == SetRelayRoster(NetworkId(name), [5], 0)
    ensures Diverges(c, cmd)
  {
    TwoTakers(c.domains[0].table);
    assert FindId(c.domains, NetworkId(name)) == 0;
  }

  /** The log makes its only pass in the last entry. */
  ghost predicate PassesLast(log: seq<Entry>, cmd: Command) {
    && |log| == 7 && log[6] == Entry(0, Normal(cmd))
    && forall i :: 0 <= i < 6 && log[i].payload.Normal? ==>
         !log[i].payload.cmd.Revoke? && !log[i].payload.cmd.SetRelayRoster?
  }

  lemma LogAsks(key: string, id: u32)
    ensures Asks(Log(key, id), key) && PassesLast(Log(key, id), SetRelayRoster(id, [5], 0))
  {}

  lemma Last(config: seq<NetConfig>, log: seq<Entry>, any: seq<Orders>, o: Orders, cmd: Command, c: Core)
    requires PassesLast(log, cmd) && |any| == 6 && c == Fold(config, log, 6, any) && Listed(c, cmd, o)
    ensures AllListed(config, log, 7, any + [o])
    ensures Fold(config, log, 7, any + [o]) == ApplyCommand(c, cmd, Anchor(6, 0), o)
  {
    var all := any + [o];
    FoldAlong(config, log, 6, all, any);
    NoPassesListed(config, log, 6, all);
    FoldOnto(config, log, 6, 7, all, log[6], o, c, Fold(config, log, 7, all));
  }

  lemma LastSplits(config: seq<NetConfig>, log: seq<Entry>, any: seq<Orders>, cmd: Command, c: Core)
      returns (a: seq<Orders>, b: seq<Orders>)
    requires PassesLast(log, cmd) && |any| == 6 && c == Fold(config, log, 6, any) && Diverges(c, cmd)
    ensures |a| == |b| == 7 && AllListed(config, log, 7, a) && AllListed(config, log, 7, b)
    ensures Fold(config, log, 7, a) != Fold(config, log, 7, b)
  {
    var o, p := RosterTwice(c, cmd, Anchor(6, 0));
    Last(config, log, any, o, cmd, c);
    Last(config, log, any, p, cmd, c);
    a, b := any + [o], any + [p];
  }

  /**
   * In any network, four registrations, two requests and one roster are enough: two replicas apply this log, list
   * their hash maps truthfully, and end with different cores, though they agree on all but path ids.
   */
  lemma ReplicasSplit(name: string, key: string, config: seq<NetConfig>, log: seq<Entry>)
      returns (a: seq<Orders>, b: seq<Orders>)
    requires KeyFor(key, name) && config == [Net(name, key)] && log == Log(key, NetworkId(name))
    ensures ConfigOk(config) && |a| == |b| == |log|
    ensures AllListed(config, log, |log|, a) && AllListed(config, log, |log|, b)
    ensures Fold(config, log, |log|, a) != Fold(config, log, |log|, b)
    ensures SameCore(Fold(config, log, |log|, a), Fold(config, log, |log|, b))
  {
    var any: seq<Orders> := seq(6, _ => Orders([], []));
    var cmd := SetRelayRoster(NetworkId(name), [5], 0);
    NobodyYet(name, key);
    LogAsks(key, NetworkId(name));
    var c := Fold(config, log, 6, any);
    BothRequested(name, key, config, log, any, c);
    RosterDiverges(c, name, key, cmd);
    a, b := LastSplits(config, log, any, cmd, c);
    ReplicasAgree(config, log, |log|, a, b);
  }
}
