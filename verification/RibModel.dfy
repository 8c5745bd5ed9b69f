/** The local RIB: peers' paths per prefix, the best of them, and the change stream that keeps a follower in step. */
module RibModel {
  import opened Bytes
  import opened Prefixes

  datatype BgpPath = BgpPath(asPath: seq<u32>, nextHop: Option<IpAddr>, origin: byte, communities: seq<u32>)

  datatype PeerPath = PeerPath(peer: string, path: BgpPath)

  datatype Entry = Entry(peers: seq<PeerPath>, best: Option<string>)

  type Table = map<Prefix, Entry>

  datatype RouteChange = Learned(prefix: Prefix, path: BgpPath) | Withdrawn(prefix: Prefix)

  // ----- choosing the best path -----

  /** Names compare byte by byte, a proper prefix first. */
  predicate NameLess(a: string, b: string)
    decreases |a|
  {
    if a == [] then b != []
    else b != [] && (a[0] < b[0] || (a[0] == b[0] && NameLess(a[1..], b[1..])))
  }

  /** Shorter AS path first, then the smaller peer name. */
  predicate Better(a: PeerPath, b: PeerPath) {
    |a.path.asPath| < |b.path.asPath| || (|a.path.asPath| == |b.path.asPath| && NameLess(a.peer, b.peer))
  }

  /** The first minimum of a list. */
  function Minimum(peers: seq<PeerPath>): (r: PeerPath)
    requires peers != []
    ensures r in peers
  {
    if |peers| == 1 then peers[0]
    else
      var m, last := Minimum(peers[..|peers| - 1]), peers[|peers| - 1];
      if Better(last, m) then last else m
  }

  function SelectBest(peers: seq<PeerPath>): Option<string> {
    if peers == [] then None else Some(Minimum(peers).peer)
  }

  lemma {:induction false} NameTotal(a: string, b: string)
    ensures !NameLess(a, a)
    ensures a == b || NameLess(a, b) || NameLess(b, a)
    ensures !(NameLess(a, b) && NameLess(b, a))
    decreases |a|
  {
    if a != [] {
      NameTotal(a[1..], a[1..]);
      if b != [] {
        NameTotal(a[1..], b[1..]);
        if a[0] == b[0] && a[1..] == b[1..] { assert a == [a[0]] + a[1..] == [b[0]] + b[1..] == b; }
      }
    }
  }

  lemma {:induction false} NameTransitive(a: string, b: string, c: string)
    requires NameLess(a, b) && NameLess(b, c)
    ensures NameLess(a, c)
    decreases |a|
  {
    if a != [] && a[0] == b[0] && b[0] == c[0] { NameTransitive(a[1..], b[1..], c[1..]); }
  }

  lemma BetterTransitive(a: PeerPath, b: PeerPath, c: PeerPath)
    requires Better(a, b) && Better(b, c)
    ensures Better(a, c)
  {
    if |a.path.asPath| == |b.path.asPath| == |c.path.asPath| { NameTransitive(a.peer, b.peer, c.peer); }
  }

  lemma BetterTotal(a: PeerPath, b: PeerPath)
    requires a.peer != b.peer
    ensures Better(a, b) != Better(b, a)
  {
    NameTotal(a.peer, b.peer);
  }

  ghost predicate UniquePeers(peers: seq<PeerPath>) {
    forall i, j :: 0 <= i < j < |peers| ==> peers[i].peer != peers[j].peer
  }

  /** Among pairwise different peers the minimum beats every other. */
  lemma {:induction false} MinimumBeats(peers: seq<PeerPath>)
    requires peers != [] && UniquePeers(peers)
    ensures forall p :: p in peers && p != Minimum(peers) ==> Better(Minimum(peers), p)
  {
    if |peers| > 1 {
      var front, last := peers[..|peers| - 1], peers[|peers| - 1];
      var m := Minimum(front);
      MinimumBeats(front);
      assert m.peer != last.peer by { assert exists i :: 0 <= i < |front| && front[i] == m; }
      BetterTotal(m, last);
      forall p | p in peers && p != Minimum(peers) ensures Better(Minimum(peers), p) {
        if p in front && p != m && Better(last, m) { BetterTransitive(last, m, p); }
        assert p in front || p == last;
      }
    }
  }

  /**
   * The selected name belongs to exactly one peer, whose path beats every other; none is selected only from nothing.
   */
  lemma SelectBestMeans(peers: seq<PeerPath>)
    requires UniquePeers(peers)
    ensures SelectBest(peers).None? <==> peers == []
    ensures forall p :: p in peers ==>
              (SelectBest(peers) == Some(p.peer) <==> forall q :: q in peers && q != p ==> Better(p, q))
  {
    if peers != [] {
      var m := Minimum(peers);
      MinimumBeats(peers);
      forall p | p in peers ensures p.peer == m.peer <==> forall q :: q in peers && q != p ==> Better(p, q) {
        if p.peer == m.peer {
          SamePeer(peers, p, m);
        } else {
          BetterTotal(p, m);
          assert m in peers && m != p && !Better(p, m);
        }
      }
    }
  }

  lemma SamePeer(peers: seq<PeerPath>, p: PeerPath, q: PeerPath)
    requires UniquePeers(peers) && p in peers && q in peers && p.peer == q.peer
    ensures p == q
  {
    var i :| 0 <= i < |peers| && peers[i] == p;
    var j :| 0 <= j < |peers| && peers[j] == q;
    assert i == j;
  }

  // ----- one entry -----

  predicate Has(peers: seq<PeerPath>, peer: string) {
    exists i :: 0 <= i < |peers| && peers[i].peer == peer
  }

  /** The path of a peer, first match. */
  function PathOf(peers: seq<PeerPath>, peer: string): Option<BgpPath> {
    if peers == [] then None
    else if peers[0].peer == peer then Some(peers[0].path)
    else PathOf(peers[1..], peer)
  }

  /** Replaces the path of the first entry of a peer. */
  function SetPath(peers: seq<PeerPath>, peer: string, path: BgpPath): (r: seq<PeerPath>)
    ensures |r| == |peers| && forall i :: 0 <= i < |peers| ==> r[i].peer == peers[i].peer
  {
    if peers == [] then []
    else if peers[0].peer == peer then [PeerPath(peer, path)] + peers[1..]
    else [peers[0]] + SetPath(peers[1..], peer, path)
  }

  function Without(peers: seq<PeerPath>, peer: string): (r: seq<PeerPath>)
    ensures |r| <= |peers|
    ensures forall p :: p in r <==> p in peers && p.peer != peer
  {
    if peers == [] then []
    else if peers[0].peer == peer then Without(peers[1..], peer)
    else [peers[0]] + Without(peers[1..], peer)
  }

  function BestPath(e: Entry): Option<BgpPath> {
    if e.best.None? then None else PathOf(e.peers, e.best.value)
  }

  function LearnedBest(prefix: Prefix, e: Entry): seq<RouteChange> {
    var p := BestPath(e);
    if p.None? then [] else [Learned(prefix, p.value)]
  }

  /** The stored best is the minimum of pairwise different peers. */
  ghost predicate EntryOk(e: Entry) {
    UniquePeers(e.peers) && e.best == SelectBest(e.peers)
  }

  lemma {:induction false} PathOfMember(peers: seq<PeerPath>, p: PeerPath)
    requires UniquePeers(peers) && p in peers
    ensures PathOf(peers, p.peer) == Some(p.path)
  {
    if peers[0] != p {
      assert p in peers[1..];
      var i :| 0 <= i < |peers[1..]| && peers[1..][i] == p;
      assert peers[i + 1] == p;
      PathOfMember(peers[1..], p);
    }
  }

  /** The best path of a good entry: present exactly when it has a peer, and then that of the minimum. */
  lemma BestOfEntry(e: Entry)
    requires EntryOk(e)
    ensures BestPath(e) == if e.peers == [] then None else Some(Minimum(e.peers).path)
  {
    if e.peers != [] { PathOfMember(e.peers, Minimum(e.peers)); }
  }

  lemma {:induction false} PathOfWithout(peers: seq<PeerPath>, peer: string, other: string)
    requires other != peer
    ensures PathOf(Without(peers, peer), other) == PathOf(peers, other)
  {
    if peers != [] { PathOfWithout(peers[1..], peer, other); }
  }

  lemma WithoutFacts(peers: seq<PeerPath>, peer: string)
    requires UniquePeers(peers)
    ensures UniquePeers(Without(peers, peer))
    ensures |Without(peers, peer)| == |peers| - (if Has(peers, peer) then 1 else 0)
  {
    WithoutUnique(peers, peer);
    WithoutLength(peers, peer);
  }

  lemma {:induction false} WithoutUnique(peers: seq<PeerPath>, peer: string)
    requires UniquePeers(peers)
    ensures UniquePeers(Without(peers, peer))
  {
    if peers != [] {
      WithoutUnique(peers[1..], peer);
      if peers[0].peer != peer { HeadApart(peers, Without(peers[1..], peer)); }
    }
  }

  lemma HeadApart(peers: seq<PeerPath>, w: seq<PeerPath>)
    requires peers != [] && UniquePeers(peers) && forall x :: x in w ==> x in peers[1..]
    ensures forall j :: 0 <= j < |w| ==> w[j].peer != peers[0].peer
  {
    forall j | 0 <= j < |w| ensures w[j].peer != peers[0].peer {
      assert w[j] in peers[1..];
      var i :| 0 <= i < |peers[1..]| && peers[1..][i] == w[j];
      assert peers[i + 1] == w[j];
    }
  }

  lemma {:induction false} WithoutLength(peers: seq<PeerPath>, peer: string)
    requires UniquePeers(peers)
    ensures |Without(peers, peer)| == |peers| - (if Has(peers, peer) then 1 else 0)
  {
    if peers != [] {
      WithoutLength(peers[1..], peer);
      HasTail(peers, peer);
    }
  }

  lemma HasTail(peers: seq<PeerPath>, peer: string)
    requires peers != []
    ensures Has(peers, peer) <==> peers[0].peer == peer || Has(peers[1..], peer)
  {
    if Has(peers[1..], peer) {
      var i :| 0 <= i < |peers[1..]| && peers[1..][i].peer == peer;
      assert peers[i + 1].peer == peer;
    }
    if Has(peers, peer) {
      var i :| 0 <= i < |peers| && peers[i].peer == peer;
      assert i > 0 ==> peers[1..][i - 1].peer == peer;
    }
  }

  /** Removing a peer that is not the best leaves the best path. */
  lemma BestKept(e: Entry, peer: string)
    requires EntryOk(e)
    requires SelectBest(Without(e.peers, peer)) == e.best && Without(e.peers, peer) != []
    ensures BestPath(Entry(Without(e.peers, peer), e.best)) == BestPath(e)
  {
    var m := Minimum(Without(e.peers, peer));
    assert m in Without(e.peers, peer);
    PathOfWithout(e.peers, peer, e.best.value);
  }

  // ----- the best-path table and the stream -----

  /** What a follower should hold: the best path of every prefix that has one. */
  function BestTable(t: Table): map<Prefix, BgpPath> {
    map p | p in t && BestPath(t[p]).Some? :: BestPath(t[p]).value
  }

  function ApplyChange(held: map<Prefix, BgpPath>, c: RouteChange): map<Prefix, BgpPath> {
    match c
    case Learned(prefix, path) => held[prefix := path]
    case Withdrawn(prefix) => held - {prefix}
  }

  function Replay(held: map<Prefix, BgpPath>, changes: seq<RouteChange>): map<Prefix, BgpPath> {
    if changes == [] then held
    else ApplyChange(Replay(held, changes[..|changes| - 1]), changes[|changes| - 1])
  }

  lemma {:induction false} ReplayConcat(held: map<Prefix, BgpPath>, a: seq<RouteChange>, b: seq<RouteChange>)
    ensures Replay(held, a + b) == Replay(Replay(held, a), b)
  {
    if b == [] {
      assert a + b == a;
    } else {
      ReplayConcat(held, a, b[..|b| - 1]);
      assert (a + b)[..|a + b| - 1] == a + b[..|b| - 1];
    }
  }

  lemma ReplayOne(held: map<Prefix, BgpPath>, c: RouteChange)
    ensures Replay(held, [c]) == ApplyChange(held, c)
  {
    assert [c][..0] == [];
  }

  // ----- operations on the table -----

  datatype Removal = Absent | Removed(table: Table, changes: seq<RouteChange>)

  /** Takes one peer off a prefix; an entry without peers goes. */
  function RemoveOne(t: Table, peer: string, prefix: Prefix): Removal {
    if prefix !in t || |Without(t[prefix].peers, peer)| == |t[prefix].peers| then Absent
    else
      var rest := Without(t[prefix].peers, peer);
      if rest == [] then Removed(t - {prefix}, [Withdrawn(prefix)])
      else
        var e := Entry(rest, SelectBest(rest));
        Removed(t[prefix := e], if e.best == t[prefix].best then [] else LearnedBest(prefix, e))
  }

  function EntryAt(t: Table, prefix: Prefix): Entry {
    if prefix in t then t[prefix] else Entry([], None)
  }

  /** A path from a peer already stored for the prefix replaces the old one. */
  function Replace(t: Table, peer: string, prefix: Prefix, path: BgpPath): Table {
    var e := EntryAt(t, prefix);
    if PathOf(e.peers, peer) == Some(path) then t[prefix := e]
    else
      var peers := SetPath(e.peers, peer, path);
      t[prefix := Entry(peers, SelectBest(peers))]
  }

  function ReplaceChanges(t: Table, peer: string, prefix: Prefix, path: BgpPath): seq<RouteChange> {
    if PathOf(EntryAt(t, prefix).peers, peer) == Some(path) then []
    else LearnedBest(prefix, Replace(t, peer, prefix, path)[prefix])
  }

  function Add(t: Table, peer: string, prefix: Prefix, path: BgpPath): Table {
    var peers := EntryAt(t, prefix).peers + [PeerPath(peer, path)];
    t[prefix := Entry(peers, SelectBest(peers))]
  }

  ghost predicate TableOk(t: Table) {
    forall p :: p in t ==> EntryOk(t[p])
  }

  // ----- the number of stored (prefix, peer) pairs -----

  function PeersAt(t: Table, prefix: Prefix): nat {
    |EntryAt(t, prefix).peers|
  }

  ghost function SumOver(t: Table, ps: set<Prefix>): nat {
    if ps == {} then 0
    else
      var p :| p in ps;
      PeersAt(t, p) + SumOver(t, ps - {p})
  }

  ghost function Count(t: Table): nat {
    SumOver(t, t.Keys)
  }

  lemma {:induction false} SumSplit(t: Table, ps: set<Prefix>, x: Prefix)
    requires x in ps
    ensures SumOver(t, ps) == PeersAt(t, x) + SumOver(t, ps - {x})
    decreases |ps|
  {
    var p :| p in ps && SumOver(t, ps) == PeersAt(t, p) + SumOver(t, ps - {p});
    if p != x {
      SumSplit(t, ps - {p}, x);
      SumSplit(t, ps - {x}, p);
      assert ps - {p} - {x} == ps - {x} - {p};
    }
  }

  lemma {:induction false} SumSame(t: Table, t': Table, ps: set<Prefix>)
    requires forall p :: p in ps ==> EntryAt(t, p) == EntryAt(t', p)
    ensures SumOver(t, ps) == SumOver(t', ps)
    decreases |ps|
  {
    if ps != {} {
      var p :| p in ps;
      SumSplit(t, ps, p);
      SumSplit(t', ps, p);
      SumSame(t, t', ps - {p});
    }
  }

  lemma CountUpdate(t: Table, x: Prefix, e: Entry)
    ensures Count(t[x := e]) == Count(t) - PeersAt(t, x) + |e.peers|
  {
    var t' := t[x := e];
    var others := t.Keys - {x};
    SumSplit(t', t'.Keys, x);
    assert t'.Keys - {x} == others;
    SumSame(t, t', others);
    if x in t { SumSplit(t, t.Keys, x); } else { assert others == t.Keys; }
  }

  lemma CountRemove(t: Table, x: Prefix)
    requires x in t
    ensures Count(t - {x}) == Count(t) - PeersAt(t, x)
  {
    SumSplit(t, t.Keys, x);
    assert (t - {x}).Keys == t.Keys - {x};
    SumSame(t, t - {x}, t.Keys - {x});
  }

  // ----- every operation keeps the entries good, the count exact and the follower in step -----

  lemma BestTableUpdate(t: Table, prefix: Prefix, e: Entry)
    ensures BestPath(e).Some? ==> BestTable(t[prefix := e]) == BestTable(t)[prefix := BestPath(e).value]
    ensures BestPath(e).None? ==> BestTable(t[prefix := e]) == BestTable(t) - {prefix}
  {}

  /** A removal that happened: entries good, one pair less, the follower in step, the peer gone from the prefix. */
  ghost predicate RemovedWell(t: Table, peer: string, prefix: Prefix, r: Removal)
    requires r.Removed?
  {
    && TableOk(r.table) && Count(r.table) == Count(t) - 1
    && Replay(BestTable(t), r.changes) == BestTable(r.table)
    && !Has(EntryAt(r.table, prefix).peers, peer)
    && (forall q :: q != prefix ==> EntryAt(r.table, q) == EntryAt(t, q))
    && r.table.Keys <= t.Keys
  }

  lemma RemoveOneOk(t: Table, peer: string, prefix: Prefix)
    requires TableOk(t)
    ensures var r := RemoveOne(t, peer, prefix);
            if Has(EntryAt(t, prefix).peers, peer) then r.Removed? && RemovedWell(t, peer, prefix, r) else r.Absent?
  {
    if prefix in t {
      WithoutFacts(t[prefix].peers, peer);
      if Has(t[prefix].peers, peer) {
        NotIn(t[prefix].peers, peer);
        if Without(t[prefix].peers, peer) == [] {
          RemovedLast(t, peer, prefix);
        } else {
          RemovedSome(t, peer, prefix);
        }
      }
    }
  }

  lemma RemovedLast(t: Table, peer: string, prefix: Prefix)
    requires TableOk(t) && prefix in t && Without(t[prefix].peers, peer) == [] && |t[prefix].peers| == 1
    ensures RemoveOne(t, peer, prefix).Removed? && RemovedWell(t, peer, prefix, RemoveOne(t, peer, prefix))
  {
    CountRemove(t, prefix);
    ReplayOne(BestTable(t), Withdrawn(prefix));
    assert BestTable(t - {prefix}) == BestTable(t) - {prefix};
  }

  lemma NotIn(peers: seq<PeerPath>, peer: string)
    ensures !Has(Without(peers, peer), peer)
  {
    var w := Without(peers, peer);
    assert forall i :: 0 <= i < |w| ==> w[i] in w;
  }

  lemma RemovedSome(t: Table, peer: string, prefix: Prefix)
    requires TableOk(t) && prefix in t && Without(t[prefix].peers, peer) != []
    requires |Without(t[prefix].peers, peer)| == |t[prefix].peers| - 1
    ensures RemoveOne(t, peer, prefix).Removed? && RemovedWell(t, peer, prefix, RemoveOne(t, peer, prefix))
  {
    var rest := Without(t[prefix].peers, peer);
    var e := Entry(rest, SelectBest(rest));
    WithoutFacts(t[prefix].peers, peer);
    NotIn(t[prefix].peers, peer);
    CountUpdate(t, prefix, e);
    BestOfEntry(e);
    RemovedReplay(t, peer, prefix, e);
  }

  lemma RemovedReplay(t: Table, peer: string, prefix: Prefix, e: Entry)
    requires TableOk(t) && prefix in t && EntryOk(e) && e.peers == Without(t[prefix].peers, peer) != []
            && BestPath(e).Some?
    ensures Replay(BestTable(t), if e.best == t[prefix].best then [] else LearnedBest(prefix, e))
            == BestTable(t[prefix := e])
  {
    BestTableUpdate(t, prefix, e);
    if e.best == t[prefix].best {
      BestKept(t[prefix], peer);
      assert BestTable(t)[prefix := BestPath(e).value] == BestTable(t);
    } else {
      ReplayOne(BestTable(t), Learned(prefix, BestPath(e).value));
    }
  }

  lemma AddOk(t: Table, peer: string, prefix: Prefix, path: BgpPath)
    requires TableOk(t) && !Has(EntryAt(t, prefix).peers, peer)
    ensures var t' := Add(t, peer, prefix, path);
            TableOk(t') && Count(t') == Count(t) + 1
            && Replay(BestTable(t), LearnedBest(prefix, t'[prefix])) == BestTable(t')
  {
    var t' := Add(t, peer, prefix, path);
    var e := t'[prefix];
    assert EntryOk(EntryAt(t, prefix));
    CountUpdate(t, prefix, e);
    BestOfEntry(e);
    BestTableUpdate(t, prefix, e);
    ReplayOne(BestTable(t), Learned(prefix, BestPath(e).value));
  }

  lemma {:induction false} PathOfHas(peers: seq<PeerPath>, peer: string)
    ensures PathOf(peers, peer).Some? <==> Has(peers, peer)
  {
    if peers != [] {
      PathOfHas(peers[1..], peer);
      HasTail(peers, peer);
    }
  }

  lemma ReplaceOk(t: Table, peer: string, prefix: Prefix, path: BgpPath)
    requires TableOk(t) && prefix in t && Has(t[prefix].peers, peer)
    ensures var t' := Replace(t, peer, prefix, path);
            TableOk(t') && Count(t') == Count(t) && Replay(BestTable(t), ReplaceChanges(t, peer, prefix, path))
                == BestTable(t')
  {
    var t' := Replace(t, peer, prefix, path);
    if PathOf(t[prefix].peers, peer) == Some(path) {
      assert t' == t;
    } else {
      var e := t'[prefix];
      assert UniquePeers(e.peers);
      CountUpdate(t, prefix, e);
      BestOfEntry(e);
      BestTableUpdate(t, prefix, e);
      assert e.peers != [];
      ReplayOne(BestTable(t), Learned(prefix, BestPath(e).value));
    }
  }
}
