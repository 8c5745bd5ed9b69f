/** The proposal of a relay roster from what the leader knows of the nodes of one network. */
module RelayRoster {
  import opened PathModel
  import opened PathShape

  const RELAY_EXIT_MISS_ROUNDS: nat := 3
  const U64_MAX: nat := 0xFFFF_FFFF_FFFF_FFFF

  /** Capability, reachability and measurements of the nodes, and the configured constraints. */
  datatype View = View(
    capable: set<NodeId>, offline: set<NodeId>, public: set<NodeId>, rtt: map<NodeId, nat>, miss: map<NodeId, nat>,
    included: set<NodeId>, excluded: set<NodeId>, maxSize: nat)

  predicate Eligible(v: View, n: NodeId) {
    n in v.capable && n !in v.excluded && n !in v.offline
  }

  predicate Healthy(v: View, n: NodeId) {
    n in v.rtt && (if n in v.miss then v.miss[n] else 0) < RELAY_EXIT_MISS_ROUNDS
  }

  predicate Auto(v: View, n: NodeId) {
    Eligible(v, n) && n in v.public && Healthy(v, n)
  }

  predicate Included(v: View, n: NodeId) {
    Eligible(v, n) && n in v.included && Healthy(v, n)
  }

  function RttOf(v: View, n: NodeId): nat {
    if n in v.rtt then v.rtt[n] else U64_MAX
  }

  /** Shorter round trip first, then the smaller id. */
  predicate Before(v: View, a: NodeId, b: NodeId) {
    RttOf(v, a) < RttOf(v, b) || (RttOf(v, a) == RttOf(v, b) && a < b)
  }

  // ----- sorting -----

  ghost predicate Ordered(v: View, s: seq<NodeId>) {
    forall i, j :: 0 <= i < j < |s| ==> Before(v, s[i], s[j])
  }

  function Insert(v: View, x: NodeId, s: seq<NodeId>): (r: seq<NodeId>)
    ensures forall y :: y in r <==> y == x || y in s
  {
    if s == [] || Before(v, x, s[0]) then [x] + s else [s[0]] + Insert(v, x, s[1..])
  }

  function Sort(v: View, s: seq<NodeId>): (r: seq<NodeId>)
    ensures forall y :: y in r <==> y in s
  {
    if s == [] then []
    else
      assert s == s[..|s| - 1] + [s[|s| - 1]];
      Insert(v, s[|s| - 1], Sort(v, s[..|s| - 1]))
  }

  lemma {:induction false} InsertOrdered(v: View, x: NodeId, s: seq<NodeId>)
    requires Ordered(v, s) && x !in s
    ensures Ordered(v, Insert(v, x, s))
  {
    if s != [] && !Before(v, x, s[0]) {
      var rest := Insert(v, x, s[1..]);
      InsertOrdered(v, x, s[1..]);
      forall k | 0 <= k < |rest| ensures Before(v, s[0], rest[k]) {
        assert rest[k] in rest;
        if rest[k] != x {
          var j :| 0 <= j < |s[1..]| && s[1..][j] == rest[k];
          assert s[j + 1] == rest[k];
        }
      }
    }
  }

  lemma {:induction false} SortOrdered(v: View, s: seq<NodeId>)
    requires NoDuplicates(s)
    ensures Ordered(v, Sort(v, s))
  {
    if s != [] {
      var front := s[..|s| - 1];
      SortOrdered(v, front);
      assert s[|s| - 1] !in front;
      InsertOrdered(v, s[|s| - 1], Sort(v, front));
    }
  }

  lemma OrderedDistinct(v: View, s: seq<NodeId>)
    requires Ordered(v, s)
    ensures NoDuplicates(s)
  {}

  /** An ordered list is determined by its members. */
  lemma {:induction false} OrderedUnique(v: View, a: seq<NodeId>, b: seq<NodeId>)
    requires Ordered(v, a) && Ordered(v, b) && forall x :: x in a <==> x in b
    ensures a == b
  {
    HeadIn(b);
    if a != [] {
      assert a[0] in b && b != [] && b[0] in a;
      HeadLeast(v, a, b[0]);
      HeadLeast(v, b, a[0]);
      assert a[0] == b[0];
      SameTails(v, a, b);
      OrderedUnique(v, a[1..], b[1..]);
      assert a == [a[0]] + a[1..] && b == [b[0]] + b[1..];
    }
  }

  lemma HeadIn(s: seq<NodeId>)
    ensures s != [] ==> s[0] in s
  {}

  lemma HeadLeast(v: View, s: seq<NodeId>, x: NodeId)
    requires Ordered(v, s) && x in s
    ensures s[0] == x || Before(v, s[0], x)
  {
    var i :| 0 <= i < |s| && s[i] == x;
  }

  lemma SameTails(v: View, a: seq<NodeId>, b: seq<NodeId>)
    requires Ordered(v, a) && Ordered(v, b) && (forall x :: x in a <==> x in b) && a != [] && b != [] && a[0] == b[0]
    ensures forall x :: x in a[1..] <==> x in b[1..]
  {
    TailMembers(v, a);
    TailMembers(v, b);
  }

  lemma TailMembers(v: View, s: seq<NodeId>)
    requires Ordered(v, s) && s != []
    ensures forall x :: x in s[1..] <==> x in s && x != s[0]
  {
    assert s == [s[0]] + s[1..];
    forall x | x in s[1..] ensures x != s[0] {
      var i :| 0 <= i < |s[1..]| && s[1..][i] == x;
      assert Before(v, s[0], s[i + 1]);
    }
  }

  // ----- the proposal -----

  function Autos(v: View, order: seq<NodeId>): (r: seq<NodeId>)
    ensures forall n :: n in r <==> n in order && Auto(v, n)
  {
    if order == [] then []
    else
      var front, last := Autos(v, order[..|order| - 1]), order[|order| - 1];
      assert order == order[..|order| - 1] + [last];
      if Auto(v, last) then front + [last] else front
  }

  lemma {:induction false} AutosDistinct(v: View, order: seq<NodeId>)
    requires NoDuplicates(order)
    ensures NoDuplicates(Autos(v, order))
  {
    if order != [] {
      var front, last := order[..|order| - 1], order[|order| - 1];
      AutosDistinct(v, front);
      assert last !in front;
      assert forall i :: 0 <= i < |Autos(v, front)| ==> Autos(v, front)[i] in Autos(v, front);
    }
  }

  /** The automatic candidates that come before a node. */
  function Ahead(v: View, nodes: set<NodeId>, n: NodeId): set<NodeId> {
    set m | m in nodes && Auto(v, m) && Before(v, m, n)
  }

  /** Included by configuration, or among the closest automatic candidates. */
  predicate Chosen(v: View, nodes: set<NodeId>, n: NodeId) {
    Included(v, n) || (Auto(v, n) && |Ahead(v, nodes, n)| < v.maxSize)
  }

  /** The roster over a set of registered nodes: exactly the chosen ones, closest first. */
  ghost predicate IsProposal(v: View, nodes: set<NodeId>, roster: seq<NodeId>) {
    Ordered(v, roster) && forall n :: n in roster <==> n in nodes && Chosen(v, nodes, n)
  }

  lemma AheadInOrder(v: View, auto: seq<NodeId>, i: nat)
    requires Ordered(v, auto) && i < |auto|
    ensures (set m | m in auto && Before(v, m, auto[i])) == Members(auto[..i]) && |Members(auto[..i])| == i
  {
    OrderedDistinct(v, auto);
    MembersCount(auto[..i]);
    forall m | m in auto && Before(v, m, auto[i]) ensures m in auto[..i] {
      var j :| 0 <= j < |auto| && auto[j] == m;
      assert j < i;
    }
    forall m | m in auto[..i] ensures m in auto && Before(v, m, auto[i]) {
      var j :| 0 <= j < i && auto[..i][j] == m;
      assert auto[j] == m;
    }
  }

  /** Cutting the sorted candidates keeps exactly those with few enough ahead of them. */
  lemma Truncated(v: View, order: seq<NodeId>, auto: seq<NodeId>, n: NodeId)
    requires auto == Sort(v, Autos(v, order)) && NoDuplicates(order)
    ensures n in auto[..Min(|auto|, v.maxSize)] <==>
            n in order && Auto(v, n) && |Ahead(v, Members(order), n)| < v.maxSize
  {
    AutosDistinct(v, order);
    SortOrdered(v, Autos(v, order));
    if n in auto {
      var i :| 0 <= i < |auto| && auto[i] == n;
      AheadInOrder(v, auto, i);
      assert Ahead(v, Members(order), n) == set m | m in auto && Before(v, m, auto[i]);
      OrderedDistinct(v, auto);
      PrefixMember(auto, i, Min(|auto|, v.maxSize));
    }
  }

  lemma PrefixMember(s: seq<NodeId>, i: nat, k: nat)
    requires NoDuplicates(s) && i < |s| && k <= |s|
    ensures s[i] in s[..k] <==> i < k
  {
    if i < k { assert s[..k][i] == s[i]; }
    if s[i] in s[..k] {
      var j :| 0 <= j < k && s[..k][j] == s[i];
      assert s[j] == s[i];
    }
  }

  /** `order` is the order in which the hash map listed the registered nodes; the result does not depend on it. */
  method Propose(order: seq<NodeId>, v: View) returns (roster: seq<NodeId>)
    requires NoDuplicates(order)
    ensures IsProposal(v, Members(order), roster)
  {
    var auto := Sort(v, Autos(v, order));
    forall n ensures n in auto[..Min(|auto|, v.maxSize)] <==>
        n in order && Auto(v, n) && |Ahead(v, Members(order), n)| < v.maxSize {
      Truncated(v, order, auto, n);
    }
    AutosDistinct(v, order);
    SortOrdered(v, Autos(v, order));
    roster := AddIncluded(order, v, auto[..Min(|auto|, v.maxSize)]);
    SortOrdered(v, roster);
    roster := Sort(v, roster);
  }

  /** Configured relays come in whatever the cut left out. */
  method AddIncluded(order: seq<NodeId>, v: View, start: seq<NodeId>) returns (roster: seq<NodeId>)
    requires NoDuplicates(start)
    ensures NoDuplicates(roster)
    ensures forall n :: n in roster <==> n in start || (n in order && Included(v, n))
  {
    roster := start;
    for i := 0 to |order|
      invariant NoDuplicates(roster)
      invariant forall n :: n in roster <==> n in start || (n in order[..i] && Included(v, n))
    {
      assert order[..i + 1] == order[..i] + [order[i]];
      if Included(v, order[i]) && order[i] !in roster {
        roster := roster + [order[i]];
      }
    }
    assert order[..|order|] == order;
  }

  /** The proposal is a function of the nodes and what is known of them. */
  lemma ProposalUnique(v: View, nodes: set<NodeId>, a: seq<NodeId>, b: seq<NodeId>)
    requires IsProposal(v, nodes, a) && IsProposal(v, nodes, b)
    ensures a == b && NoDuplicates(a)
  {
    OrderedUnique(v, a, b);
    OrderedDistinct(v, a);
  }
}
