/** What the RIB stores: for every peer and prefix, the last admitted announcement that was not withdrawn since. */
module RibContents {
  import opened Prefixes
  import opened WireModel
  import opened RibModel
  import opened Policy
  import opened Rib

  function PathAt(t: Table, p: Prefix, peer: string): Option<BgpPath> {
    PathOf(EntryAt(t, p).peers, peer)
  }

  /** Only one peer's path for one prefix changed, to the given value. */
  ghost predicate OnlyChanged(t: Table, t': Table, p: Prefix, peer: string, path: Option<BgpPath>) {
    && PathAt(t', p, peer) == path
    && forall q, n :: q != p || n != peer ==> PathAt(t', q, n) == PathAt(t, q, n)
  }

  lemma {:induction false} PathOfSet(peers: seq<PeerPath>, peer: string, path: BgpPath, n: string)
    requires Has(peers, peer)
    ensures PathOf(SetPath(peers, peer, path), n) == if n == peer then Some(path) else PathOf(peers, n)
  {
    HasTail(peers, peer);
    if peers[0].peer != peer { PathOfSet(peers[1..], peer, path, n); }
  }

  lemma {:induction false} PathOfAppended(peers: seq<PeerPath>, x: PeerPath, n: string)
    ensures PathOf(peers + [x], n) == if PathOf(peers, n).None? && n == x.peer then Some(x.path) else PathOf(peers, n)
  {
    if peers != [] {
      assert (peers + [x])[1..] == peers[1..] + [x];
      PathOfAppended(peers[1..], x, n);
    }
  }

  lemma {:induction false} PathOfGone(peers: seq<PeerPath>, peer: string)
    ensures PathOf(Without(peers, peer), peer).None?
  {
    if peers != [] { PathOfGone(peers[1..], peer); }
  }

  /** A candidate counts when it is admitted and there is room for it. */
  predicate Taken(rules: Rules, st: State, peer: string, c: Candidate) {
    Admit(rules, c.prefix, c.path).None? && (PathAt(st.table, c.prefix, peer).Some? || !Full(rules, st.accepted))
  }

  lemma ReplaceStores(t: Table, peer: string, p: Prefix, path: BgpPath)
    requires Has(EntryAt(t, p).peers, peer)
    ensures OnlyChanged(t, Replace(t, peer, p, path), p, peer, Some(path))
  {
    var peers := EntryAt(t, p).peers;
    forall n ensures PathOf(SetPath(peers, peer, path), n) == if n == peer then Some(path) else PathOf(peers, n) {
      PathOfSet(peers, peer, path, n);
    }
  }

  lemma AddStores(t: Table, peer: string, p: Prefix, path: BgpPath)
    requires !Has(EntryAt(t, p).peers, peer)
    ensures OnlyChanged(t, Add(t, peer, p, path), p, peer, Some(path))
  {
    var peers := EntryAt(t, p).peers;
    PathOfHas(peers, peer);
    forall n ensures PathOf(peers + [PeerPath(peer, path)], n) == if n == peer then Some(path) else PathOf(peers, n) {
      PathOfAppended(peers, PeerPath(peer, path), n);
    }
  }

  /**
   * A taken candidate is stored and nothing else changes; any other changes nothing; only a full table stops the
   * UPDATE.
   */
  lemma AnnounceStores(rules: Rules, st: State, peer: string, c: Candidate)
    ensures var o := Announce(rules, st, peer, c);
            && OnlyChanged(st.table, o.state.table, c.prefix, peer,
                           if Taken(rules, st, peer, c) then Some(c.path) else PathAt(st.table, c.prefix, peer))
            && (o.exceeded <==> Admit(rules, c.prefix, c.path).None? && !Taken(rules, st, peer, c))
            && (o.rejected == [] <==> Admit(rules, c.prefix, c.path).None?)
  {
    PathOfHas(EntryAt(st.table, c.prefix).peers, peer);
    if Taken(rules, st, peer, c) {
      if Has(EntryAt(st.table, c.prefix).peers, peer) {
        ReplaceStores(st.table, peer, c.prefix, c.path);
      } else {
        AddStores(st.table, peer, c.prefix, c.path);
      }
    }
  }

  lemma WithdrawStores(st: State, peer: string, p: Prefix)
    ensures OnlyChanged(st.table, WithdrawOne(st, peer, p).state.table, p, peer, None)
  {
    var peers := EntryAt(st.table, p).peers;
    PathOfGone(peers, peer);
    forall n | n != peer ensures PathOf(Without(peers, peer), n) == PathOf(peers, n) { PathOfWithout(peers, peer, n); }
    if |Without(peers, peer)| == |peers| { WithoutAll(peers, peer); }
  }

  lemma {:induction false} WithoutAll(peers: seq<PeerPath>, peer: string)
    requires |Without(peers, peer)| == |peers|
    ensures Without(peers, peer) == peers
  {
    if peers != [] { WithoutAll(peers[1..], peer); }
  }

  // ----- a whole UPDATE -----

  /** The last admitted candidate for a prefix. */
  function LastAdmitted(rules: Rules, cs: seq<Candidate>, p: Prefix): Option<BgpPath> {
    if cs == [] then None
    else
      var c := cs[|cs| - 1];
      if c.prefix == p && Admit(rules, p, c.path).None? then Some(c.path) else LastAdmitted(rules, cs[..|cs| - 1], p)
  }

  function OrElse<T>(a: Option<T>, b: Option<T>): Option<T> {
    if a.Some? then a else b
  }

  /** An admitted candidate for a prefix that the peer has no path for, before the UPDATE or by an earlier candidate. */
  predicate IsNew(rules: Rules, st: State, peer: string, earlier: seq<Candidate>, c: Candidate) {
    && Admit(rules, c.prefix, c.path).None?
    && PathAt(st.table, c.prefix, peer).None? && LastAdmitted(rules, earlier, c.prefix).None?
  }

  function NewCount(rules: Rules, st: State, peer: string, cs: seq<Candidate>): nat {
    if cs == [] then 0
    else
      var front, c := cs[..|cs| - 1], cs[|cs| - 1];
      NewCount(rules, st, peer, front) + if IsNew(rules, st, peer, front, c) then 1 else 0
  }

  /** A new candidate when the old routes and the earlier new ones fill the limit. */
  predicate Refused(rules: Rules, st: State, peer: string, earlier: seq<Candidate>, c: Candidate) {
    IsNew(rules, st, peer, earlier, c) && Full(rules, st.accepted + NewCount(rules, st, peer, earlier))
  }

  /** The position of the first refused candidate, or the number of candidates. */
  function Stop(rules: Rules, st: State, peer: string, cs: seq<Candidate>): (k: nat)
    ensures k <= |cs|
    ensures forall i :: 0 <= i < k ==> !Refused(rules, st, peer, cs[..i], cs[i])
    ensures k < |cs| ==> Refused(rules, st, peer, cs[..k], cs[k])
  {
    if cs == [] then 0
    else
      var front, c := cs[..|cs| - 1], cs[|cs| - 1];
      assert forall i :: 0 <= i <= |front| ==> front[..i] == cs[..i];
      var k := Stop(rules, st, peer, front);
      if k < |front| || Refused(rules, st, peer, front, c) then k else |cs|
  }

  /** What the candidates up to the first refused one stored. */
  ghost predicate Stored(rules: Rules, st: State, peer: string, cs: seq<Candidate>, o: Outcome, p: Prefix, n: string) {
    var k := Stop(rules, st, peer, cs);
    && (o.exceeded <==> k < |cs|)
    && (!o.exceeded ==> o.state.accepted == st.accepted + NewCount(rules, st, peer, cs))
    && PathAt(o.state.table, p, n) ==
       if n == peer then OrElse(LastAdmitted(rules, cs[..k], p), PathAt(st.table, p, n)) else PathAt(st.table, p, n)
  }

  lemma StoredNext(rules: Rules, st: State, peer: string, cs: seq<Candidate>, o: Outcome, p: Prefix, n: string)
    requires cs != [] && !o.exceeded
    requires Stored(rules, st, peer, cs[..|cs| - 1], o, p, n)
    requires Stored(rules, st, peer, cs[..|cs| - 1], o, cs[|cs| - 1].prefix, peer)
    ensures Stored(rules, st, peer, cs, Announce(rules, o.state, peer, cs[|cs| - 1]), p, n)
  {
    var front, c := cs[..|cs| - 1], cs[|cs| - 1];
    assert front[..|front|] == front && cs[..|cs|] == cs && cs[..|front|] == front;
    AnnounceStores(rules, o.state, peer, c);
    AnnounceCounts(rules, o.state, peer, c);
  }

  /** A taken candidate counts once when the peer had no path for its prefix. */
  lemma AnnounceCounts(rules: Rules, st: State, peer: string, c: Candidate)
    ensures Announce(rules, st, peer, c).state.accepted ==
            st.accepted + if Taken(rules, st, peer, c) && PathAt(st.table, c.prefix, peer).None? then 1 else 0
  {
    PathOfHas(EntryAt(st.table, c.prefix).peers, peer);
  }

  lemma {:induction false} AnnounceAllStores(rules: Rules, st: State, peer: string, cs: seq<Candidate>, p: Prefix,
      n: string)
    ensures Stored(rules, st, peer, cs, AnnounceAll(rules, st, peer, cs), p, n)
    decreases |cs|
  {
    if cs != [] {
      var front, c := cs[..|cs| - 1], cs[|cs| - 1];
      AnnounceAllStores(rules, st, peer, front, p, n);
      AnnounceAllStores(rules, st, peer, front, c.prefix, peer);
      var o := AnnounceAll(rules, st, peer, front);
      if o.exceeded {
        assert cs[..Stop(rules, st, peer, front)] == front[..Stop(rules, st, peer, front)];
      } else {
        StoredNext(rules, st, peer, cs, o, p, n);
      }
    }
  }

  lemma {:induction false} WithdrawAllStores(st: State, peer: string, ps: seq<Prefix>, p: Prefix, n: string)
    ensures PathAt(WithdrawAll(st, peer, ps).state.table, p, n) == if n == peer
            && p in ps then None else PathAt(st.table, p, n)
  {
    if ps != [] {
      var front, last := ps[..|ps| - 1], ps[|ps| - 1];
      assert ps == front + [last];
      WithdrawAllStores(st, peer, front, p, n);
      WithdrawStores(WithdrawAll(st, peer, front).state, peer, last);
    }
  }

  /**
   * After an UPDATE, within the limit or not: the peer's announced prefixes hold the last path admitted before the
   * first refused candidate; withdrawn ones are gone, unless a candidate was refused, when none goes; the rest is as
   * before.
   */
  lemma UpdateStores(rules: Rules, st: State, peer: string, m: Message, p: Prefix, n: string)
    requires m.Update?
    ensures var cs := Announced(m);
            var k := Stop(rules, st, peer, cs);
            && (Apply(rules, st, peer, m).exceeded <==> k < |cs|)
            && PathAt(Apply(rules, st, peer, m).state.table, p, n) ==
               if n != peer then PathAt(st.table, p, n)
               else if k == |cs| && p in WithdrawnBy(m) then None
               else OrElse(LastAdmitted(rules, cs[..k], p), PathAt(st.table, p, n))
  {
    var o := AnnounceAll(rules, st, peer, Announced(m));
    AnnounceAllStores(rules, st, peer, Announced(m), p, n);
    WithdrawAllStores(o.state, peer, WithdrawnBy(m), p, n);
  }

  /**
   * A new prefix ends as an entry without paths, which the prefix count of the RIB includes, exactly when it is refused
   * at the limit.
   */
  lemma RefusalLeavesEmptyEntry(rules: Rules, st: State, peer: string, c: Candidate)
    requires c.prefix !in st.table
    ensures var t := Announce(rules, st, peer, c).state.table;
            (c.prefix in t && forall n :: PathAt(t, c.prefix, n).None?) <==>
            (Admit(rules, c.prefix, c.path).None? && Full(rules, st.accepted))
  {
    AnnounceStores(rules, st, peer, c);
  }
}
