/** The longest-prefix-match table and the route lookup built from two stable sorts. */
module RouteEngine {
  import opened Bytes
  import opened Prefixes

  datatype RouteSource = Lan | Mesh | DynDn42 | Dn42 | Tailnet {
    function Priority(): nat {
      match this
      case Lan => 0
      case Mesh => 1
      case Dn42 => 2
      case DynDn42 => 3
      case Tailnet => 4
    }
  }

  datatype RouteVia = ViaMesh(node: u32) | ViaDn42(peer: string) | ViaTailnet(peer: string) | Direct(iface: string)

  datatype RouteEntry = RouteEntry(prefix: Prefix, source: RouteSource, via: RouteVia, metric: Option<u32>)

  // ----- stable sorting of table positions -----

  /** The sort key of a position; `keys` has one key per table entry. */
  function At(keys: seq<nat>, i: nat): nat {
    if i < |keys| then keys[i] else 0
  }

  /** Puts x, which came before every element of s, in front of the first key that is not smaller. */
  function InsertByKey(x: nat, s: seq<nat>, key: seq<nat>): (r: seq<nat>)
    ensures multiset(r) == multiset(s) + multiset{x}
  {
    if s == [] || At(key, x) <= At(key, s[0]) then [x] + s
    else
      assert s == [s[0]] + s[1..];
      [s[0]] + InsertByKey(x, s[1..], key)
  }

  function StableSort(s: seq<nat>, key: seq<nat>): (r: seq<nat>)
    ensures multiset(r) == multiset(s)
  {
    if s == [] then []
    else
      assert s == [s[0]] + s[1..];
      InsertByKey(s[0], StableSort(s[1..], key), key)
  }

  ghost predicate SortedByKey(s: seq<nat>, key: seq<nat>) {
    forall i, j :: 0 <= i < j < |s| ==> At(key, s[i]) <= At(key, s[j])
  }

  /** Positions that share the fine key share the coarse one and appear in increasing order. */
  ghost predicate TiesInOrder(s: seq<nat>, fine: seq<nat>, coarse: seq<nat>) {
    forall i, j :: 0 <= i < j < |s| && At(fine, s[i]) == At(fine, s[j]) ==>
        s[i] < s[j] && At(coarse, s[i]) == At(coarse, s[j])
  }

  lemma MemberOf(r: seq<nat>, s: seq<nat>, k: nat)
    requires multiset(r) == multiset(s) && k < |r|
    ensures r[k] in s
  {
    assert r[k] in multiset(r);
  }

  lemma {:induction false} InsertKeepsOrder(x: nat, s: seq<nat>, key: seq<nat>, fine: seq<nat>)
    requires SortedByKey(s, key)
    requires TiesInOrder([x] + s, fine, key)
    ensures SortedByKey(InsertByKey(x, s, key), key)
    ensures TiesInOrder(InsertByKey(x, s, key), fine, key)
  {
    var u := [x] + s;
    if s == [] || At(key, x) <= At(key, s[0]) {
      assert InsertByKey(x, s, key) == u;
      forall i, j | 0 <= i < j < |u| ensures At(key, u[i]) <= At(key, u[j]) {
        assert u[j] == s[j - 1];
      }
    } else {
      var rest := s[1..];
      var t := InsertByKey(x, rest, key);
      assert forall k :: 0 <= k < |[x] + rest| ==> ([x] + rest)[k] == if k == 0 then u[0] else u[k + 1];
      InsertKeepsOrder(x, rest, key, fine);
      assert s == [s[0]] + rest;
      HeadBefore(s[0], x, rest, t, key, fine);
    }
  }

  /** What stands in front of a sorted rest that may hold x too. */
  lemma HeadBefore(head: nat, x: nat, rest: seq<nat>, t: seq<nat>, key: seq<nat>, fine: seq<nat>)
    requires multiset(t) == multiset(rest) + multiset{x}
    requires SortedByKey([head] + rest, key) && At(key, head) < At(key, x)
    requires TiesInOrder([x] + ([head] + rest), fine, key)
    requires SortedByKey(t, key) && TiesInOrder(t, fine, key)
    ensures SortedByKey([head] + t, key)
    ensures TiesInOrder([head] + t, fine, key)
  {
    var u := [x] + ([head] + rest);
    assert u[0] == x && u[1] == head;
    forall k | 0 <= k < |t|
      ensures At(key, head) <= At(key, t[k])
      ensures At(fine, t[k]) == At(fine, head) ==> head < t[k] && At(key, head) == At(key, t[k])
    {
      assert multiset(t) == multiset([x] + rest);
      MemberOf(t, [x] + rest, k);
      var m :| 0 <= m < |[x] + rest| && ([x] + rest)[m] == t[k];
      if m > 0 { assert u[m + 1] == t[k] && ([head] + rest)[m] == t[k]; }
    }
  }

  /** The sort orders by key and leaves positions with the same finer key in their order. */
  lemma {:induction false} StableSortCorrect(s: seq<nat>, key: seq<nat>, fine: seq<nat>)
    requires TiesInOrder(s, fine, key)
    ensures SortedByKey(StableSort(s, key), key)
    ensures TiesInOrder(StableSort(s, key), fine, key)
  {
    if s != [] {
      var t := StableSort(s[1..], key);
      StableSortCorrect(s[1..], key, fine);
      var u := [s[0]] + t;
      forall i, j | 0 <= i < j < |u| && At(fine, u[i]) == At(fine, u[j])
        ensures u[i] < u[j] && At(key, u[i]) == At(key, u[j])
      {
        if i == 0 { MemberOf(t, s[1..], j - 1); }
      }
      InsertKeepsOrder(s[0], t, key, fine);
    }
  }

  // ----- the lookup -----

  function MatchingFrom(entries: seq<RouteEntry>, addr: IpAddr, from: nat): (r: seq<nat>)
    requires from <= |entries|
    ensures forall k :: 0 <= k < |r| ==> from <= r[k] < |entries| && Matches(entries[r[k]].prefix, addr)
    ensures forall i, j :: 0 <= i < j < |r| ==> r[i] < r[j]
    ensures forall e :: from <= e < |entries| && Matches(entries[e].prefix, addr) ==> e in r
    decreases |entries| - from
  {
    if from == |entries| then []
    else
      var rest := MatchingFrom(entries, addr, from + 1);
      if Matches(entries[from].prefix, addr) then [from] + rest else rest
  }

  function LenKeys(entries: seq<RouteEntry>): (keys: seq<nat>) {
    seq(|entries|, i requires 0 <= i < |entries| => entries[i].prefix.len)
  }

  /** (longest first, then source priority), packed in one number: a priority is below 8. */
  function LookupKeys(entries: seq<RouteEntry>): (keys: seq<nat>) {
    seq(|entries|, i requires 0 <= i < |entries| => (128 - entries[i].prefix.len) * 8 + entries[i].source.Priority())
  }

  /** Positions of the matching entries, shortest prefix first. */
  function TableMatches(entries: seq<RouteEntry>, addr: IpAddr): seq<nat> {
    StableSort(MatchingFrom(entries, addr, 0), LenKeys(entries))
  }

  function Lookup(entries: seq<RouteEntry>, addr: IpAddr): seq<nat> {
    StableSort(TableMatches(entries, addr), LookupKeys(entries))
  }

  function FirstReachable(entries: seq<RouteEntry>, found: seq<nat>,
      reachable: RouteEntry -> bool): Option<RouteEntry> {
    if found == [] then None
    else if found[0] < |entries| && reachable(entries[found[0]]) then Some(entries[found[0]])
    else FirstReachable(entries, found[1..], reachable)
  }

  function LookupBest(entries: seq<RouteEntry>, addr: IpAddr, reachable: RouteEntry -> bool): Option<RouteEntry> {
    FirstReachable(entries, Lookup(entries, addr), reachable)
  }

  // ----- what the lookup means -----

  /** Position i wins over position j: longer prefix, then source priority, then insertion order. */
  ghost predicate Wins(entries: seq<RouteEntry>, i: nat, j: nat)
    requires i < |entries| && j < |entries|
  {
    var a, b := entries[i], entries[j];
    || a.prefix.len > b.prefix.len
    || (a.prefix.len == b.prefix.len && a.source.Priority() < b.source.Priority())
    || (a.prefix.len == b.prefix.len && a.source.Priority() == b.source.Priority() && i < j)
  }

  ghost predicate Usable(entries: seq<RouteEntry>, addr: IpAddr, reachable: RouteEntry -> bool, i: nat) {
    i < |entries| && Matches(entries[i].prefix, addr) && reachable(entries[i])
  }

  /** Position w is usable and wins over every other usable position. */
  ghost predicate Best(entries: seq<RouteEntry>, addr: IpAddr, reachable: RouteEntry -> bool, w: nat) {
    Usable(entries, addr, reachable, w) &&
    forall i: nat :: Usable(entries, addr, reachable, i) && i != w ==> Wins(entries, w, i)
  }

  ghost predicate WinsAmong(entries: seq<RouteEntry>, found: seq<nat>, reachable: RouteEntry -> bool, w: nat)
    requires forall k :: 0 <= k < |found| ==> found[k] < |entries|
  {
    w < |found| && reachable(entries[found[w]]) &&
    forall k :: 0 <= k < |found| && k != w && reachable(entries[found[k]]) ==> Wins(entries, found[w], found[k])
  }

  ghost predicate WinsInOrder(entries: seq<RouteEntry>, r: seq<nat>) {
    forall i, j :: 0 <= i < j < |r| ==> r[i] < |entries| && r[j] < |entries| && Wins(entries, r[i], r[j])
  }

  /** A lookup lists exactly the matching positions, strictly ordered by `Wins`. */
  lemma LookupOrdered(entries: seq<RouteEntry>, addr: IpAddr)
    ensures forall e: nat :: e in Lookup(entries, addr) <==> e < |entries| && Matches(entries[e].prefix, addr)
    ensures WinsInOrder(entries, Lookup(entries, addr))
  {
    var m := MatchingFrom(entries, addr, 0);
    SameMembers(Lookup(entries, addr), m);
    LookupOrder(entries, m);
  }

  lemma SameMembers(r: seq<nat>, s: seq<nat>)
    requires multiset(r) == multiset(s)
    ensures forall e: nat :: e in r <==> e in s
  {
    forall e: nat ensures e in r <==> e in s {
      assert e in multiset(r) <==> e in multiset(s);
    }
  }

  lemma LookupOrder(entries: seq<RouteEntry>, m: seq<nat>)
    requires forall k :: 0 <= k < |m| ==> m[k] < |entries|
    requires forall i, j :: 0 <= i < j < |m| ==> m[i] < m[j]
    ensures WinsInOrder(entries, StableSort(StableSort(m, LenKeys(entries)), LookupKeys(entries)))
  {
    var coarse, fine := LenKeys(entries), LookupKeys(entries);
    forall i, j | 0 <= i < j < |m| && At(fine, m[i]) == At(fine, m[j])
      ensures At(coarse, m[i]) == At(coarse, m[j])
    {
      KeyFiner(entries, m[i], m[j]);
    }
    TwoSorts(m, coarse, fine);
    KeyOrderIsWins(entries, m, StableSort(StableSort(m, coarse), fine));
  }

  /** Strictly ordered by key, positions with equal keys increasing. */
  ghost predicate KeyOrdered(r: seq<nat>, keys: seq<nat>) {
    forall i, j :: 0 <= i < j < |r| ==>
        At(keys, r[i]) < At(keys, r[j]) || (At(keys, r[i]) == At(keys, r[j]) && r[i] < r[j])
  }

  /** Sorting an increasing list of positions by one key and then by a finer one. */
  lemma TwoSorts(m: seq<nat>, coarse: seq<nat>, fine: seq<nat>)
    requires forall i, j :: 0 <= i < j < |m| ==> m[i] < m[j]
    requires forall i, j :: 0 <= i < j < |m| && At(fine, m[i]) == At(fine, m[j]) ==>
            At(coarse, m[i]) == At(coarse, m[j])
    ensures KeyOrdered(StableSort(StableSort(m, coarse), fine), fine)
  {
    StableSortCorrect(m, coarse, fine);
    StableSortCorrect(StableSort(m, coarse), fine, fine);
  }

  lemma KeyFiner(entries: seq<RouteEntry>, i: nat, j: nat)
    requires i < |entries| && j < |entries|
    ensures At(LookupKeys(entries), i) == At(LookupKeys(entries), j) ==>
            At(LenKeys(entries), i) == At(LenKeys(entries), j)
  {}

  lemma KeyOrderIsWins(entries: seq<RouteEntry>, m: seq<nat>, r: seq<nat>)
    requires multiset(r) == multiset(m) && forall k :: 0 <= k < |m| ==> m[k] < |entries|
    requires KeyOrdered(r, LookupKeys(entries))
    ensures WinsInOrder(entries, r)
  {
    forall i, j | 0 <= i < j < |r|
      ensures r[i] < |entries| && r[j] < |entries| && Wins(entries, r[i], r[j])
    {
      MemberOf(r, m, i);
      MemberOf(r, m, j);
      SmallerKeyWins(entries, r[i], r[j]);
    }
  }

  lemma SmallerKeyWins(entries: seq<RouteEntry>, i: nat, j: nat)
    requires i < |entries| && j < |entries|
    requires var keys := LookupKeys(entries); At(keys, i) < At(keys, j) || (At(keys, i) == At(keys, j) && i < j)
    ensures Wins(entries, i, j)
  {
    assert At(LookupKeys(entries), i) == (128 - entries[i].prefix.len) * 8 + entries[i].source.Priority();
    assert At(LookupKeys(entries), j) == (128 - entries[j].prefix.len) * 8 + entries[j].source.Priority();
  }

  lemma {:induction false} FirstReachableWins(entries: seq<RouteEntry>, found: seq<nat>, reachable: RouteEntry -> bool)
    requires forall k :: 0 <= k < |found| ==> found[k] < |entries|
    requires WinsInOrder(entries, found)
    ensures var r := FirstReachable(entries, found, reachable);
            if r.None? then forall k :: 0 <= k < |found| ==> !reachable(entries[found[k]])
            else exists w :: 0 <= w < |found| && r.value == entries[found[w]] && WinsAmong(entries, found, reachable, w)
  {
    if found != [] {
      if reachable(entries[found[0]]) {
        assert WinsAmong(entries, found, reachable, 0);
      } else {
        var rest := found[1..];
        FirstReachableWins(entries, rest, reachable);
        var r := FirstReachable(entries, rest, reachable);
        assert forall k :: 0 < k < |found| ==> found[k] == rest[k - 1];
        if r.Some? {
          var w :| 0 <= w < |rest| && r.value == entries[rest[w]] && WinsAmong(entries, rest, reachable, w);
          assert r.value == entries[found[w + 1]] && WinsAmong(entries, found, reachable, w + 1);
        }
      }
    }
  }

  /** The best route is the reachable match that wins over every other one; none exists exactly when none is found. */
  lemma LookupBestIsArgmax(entries: seq<RouteEntry>, addr: IpAddr, reachable: RouteEntry -> bool)
    ensures var r := LookupBest(entries, addr, reachable);
            if r.None? then forall i: nat :: !Usable(entries, addr, reachable, i)
            else exists w: nat :: Best(entries, addr, reachable, w) && r.value == entries[w]
  {
    var found := Lookup(entries, addr);
    LookupOrdered(entries, addr);
    assert forall k :: 0 <= k < |found| ==> found[k] in found;
    FirstReachableWins(entries, found, reachable);
    var r := LookupBest(entries, addr, reachable);
    if r.Some? {
      var w :| 0 <= w < |found| && r.value == entries[found[w]] && WinsAmong(entries, found, reachable, w);
      forall i: nat | Usable(entries, addr, reachable, i) && i != found[w]
        ensures Wins(entries, found[w], i)
      {
        assert i in found;
      }
      assert Best(entries, addr, reachable, found[w]);
    } else {
      assert forall i: nat :: Usable(entries, addr, reachable, i) ==> i in found;
    }
  }

  // ----- the lookup on the addresses a prefix stands for -----

  /** The list names exactly the positions whose prefix holds the address. */
  ghost predicate AllHolders(entries: seq<RouteEntry>, addr: IpAddr, found: seq<nat>) {
    forall e: nat :: e in found <==> e < |entries| && Holds(entries[e].prefix, addr)
  }

  predicate HasDefault6(entries: seq<RouteEntry>) {
    exists i :: 0 <= i < |entries| && entries[i].prefix == DEFAULT6
  }

  /**
   * A lookup finds exactly the routes that hold the address, unless it is IPv6, not `::`, and there is a default route.
   */
  lemma LookupFindsHolders(entries: seq<RouteEntry>, addr: IpAddr)
    ensures AllHolders(entries, addr, Lookup(entries, addr)) <==> !(Host6(FromIp(addr)) && HasDefault6(entries))
  {
    LookupOrdered(entries, addr);
    MatchersHold(entries, addr, Lookup(entries, addr));
  }

  lemma MatchersHold(entries: seq<RouteEntry>, addr: IpAddr, found: seq<nat>)
    requires forall e: nat :: e in found <==> e < |entries| && Matches(entries[e].prefix, addr)
    ensures AllHolders(entries, addr, found) <==> !(Host6(FromIp(addr)) && HasDefault6(entries))
  {
    forall e: nat | e < |entries|
      ensures e in found <==> Holds(entries[e].prefix, addr) && !Escapes(entries[e].prefix, FromIp(addr))
    {
      MatchesIsMembership(entries[e].prefix, addr);
    }
    if Host6(FromIp(addr)) && HasDefault6(entries) {
      var i: nat :| i < |entries| && entries[i].prefix == DEFAULT6;
      DefaultHolds(addr);
      assert i !in found && Holds(entries[i].prefix, addr);
    }
  }

  lemma DefaultHolds(addr: IpAddr)
    requires addr.V6?
    ensures Holds(DEFAULT6, addr)
  {
    WholeWord(FromIp(addr));
    assert Pow2(0) == 1;
  }

  ghost predicate Reaches(entries: seq<RouteEntry>, addr: IpAddr, reachable: RouteEntry -> bool, i: nat) {
    i < |entries| && Holds(entries[i].prefix, addr) && reachable(entries[i])
  }

  /** Position w reaches the address and wins over every other position that does. */
  ghost predicate Wanted(entries: seq<RouteEntry>, addr: IpAddr, reachable: RouteEntry -> bool, w: nat) {
    Reaches(entries, addr, reachable, w) &&
    forall i: nat :: Reaches(entries, addr, reachable, i) && i != w ==> Wins(entries, w, i)
  }

  /** The answer is the winning route that holds the address, or none when no reachable route does. */
  ghost predicate AnswersWanted(entries: seq<RouteEntry>, addr: IpAddr, reachable: RouteEntry -> bool) {
    var r := LookupBest(entries, addr, reachable);
    if r.None? then forall i: nat :: !Reaches(entries, addr, reachable, i)
    else exists w: nat :: Wanted(entries, addr, reachable, w) && r.value == entries[w]
  }

  /** Only default routes reach the IPv6 address. */
  ghost predicate OnlyDefaults(entries: seq<RouteEntry>, addr: IpAddr, reachable: RouteEntry -> bool) {
    && Host6(FromIp(addr))
    && (exists i: nat :: Reaches(entries, addr, reachable, i))
    && forall i: nat :: Reaches(entries, addr, reachable, i) ==> entries[i].prefix == DEFAULT6
  }

  lemma UsableReaches(entries: seq<RouteEntry>, addr: IpAddr, reachable: RouteEntry -> bool)
    ensures forall i: nat :: Usable(entries, addr, reachable, i) <==>
                             Reaches(entries, addr, reachable, i) && !Escapes(entries[i].prefix, FromIp(addr))
  {
    forall i: nat | i < |entries|
      ensures Matches(entries[i].prefix, addr) <==>
              Holds(entries[i].prefix, addr) && !Escapes(entries[i].prefix, FromIp(addr))
    {
      MatchesIsMembership(entries[i].prefix, addr);
    }
  }

  /** A route that is usable wins over every default route. */
  lemma BestIsWanted(entries: seq<RouteEntry>, addr: IpAddr, reachable: RouteEntry -> bool, w: nat)
    requires Best(entries, addr, reachable, w)
    ensures Wanted(entries, addr, reachable, w)
  {
    UsableReaches(entries, addr, reachable);
    if Host6(FromIp(addr)) && !entries[w].prefix.v4 && entries[w].prefix.len == 0 { OnlyDefault(entries[w].prefix); }
  }

  /**
   * The best route by the addresses prefixes stand for is the answer exactly when not only IPv6 default routes remain.
   */
  lemma LookupBestWanted(entries: seq<RouteEntry>, addr: IpAddr, reachable: RouteEntry -> bool)
    ensures AnswersWanted(entries, addr, reachable) <==> !OnlyDefaults(entries, addr, reachable)
    ensures OnlyDefaults(entries, addr, reachable) ==> LookupBest(entries, addr, reachable).None?
  {
    LookupBestIsArgmax(entries, addr, reachable);
    UsableReaches(entries, addr, reachable);
    if LookupBest(entries, addr, reachable).Some? {
      var w: nat :| Best(entries, addr, reachable, w) && LookupBest(entries, addr, reachable).value == entries[w];
      BestIsWanted(entries, addr, reachable, w);
      assert Reaches(entries, addr, reachable, w);
    }
  }

  // ----- the mutable table -----

  function Retained(s: seq<RouteEntry>, drop: RouteEntry -> bool): (r: seq<RouteEntry>)
    ensures |r| <= |s|
    ensures |r| == |s| <==> forall e :: e in s ==> !drop(e)
    ensures forall e :: e in r <==> e in s && !drop(e)
  {
    if s == [] then []
    else if drop(s[0]) then Retained(s[1..], drop)
    else [s[0]] + Retained(s[1..], drop)
  }

  class LpmTable {
    var entries: seq<RouteEntry>

    constructor ()
      ensures entries == []
    {
      entries := [];
    }

    method Insert(entry: RouteEntry)
      modifies this
      ensures entries == old(entries) + [entry]
    {
      entries := entries + [entry];
    }

    /** Removes every entry with this prefix, source and next hop; reports whether there was one. */
    method Remove(prefix: Prefix, source: RouteSource, via: RouteVia) returns (found: bool)
      modifies this
      ensures entries == Retained(old(entries), (e: RouteEntry) => e.prefix == prefix && e.source == source
              && e.via == via)
      ensures found <==> exists e :: e in old(entries) && e.prefix == prefix && e.source == source && e.via == via
    {
      var before := |entries|;
      entries := Retained(entries, (e: RouteEntry) => e.prefix == prefix && e.source == source && e.via == via);
      found := |entries| != before;
    }
  }
}
