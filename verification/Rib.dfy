/** The local RIB driven by UPDATE messages through one import policy. */
module Rib {
  import opened Bytes
  import opened Prefixes
  import opened WireModel
  import opened RibModel
  import opened Policy

  // ----- what an UPDATE announces and withdraws -----

  datatype Candidate = Candidate(prefix: Prefix, path: BgpPath)

  datatype Base = Base(path: BgpPath, reach: Option<Reach>)

  datatype Reach = Reach(afi: u16, hop: IpAddr)

  const NO_PATH: BgpPath := BgpPath([], None, 2, [])

  function FlatAsns(segs: seq<Segment>): seq<u32> {
    if segs == [] then [] else FlatAsns(segs[..|segs| - 1]) + segs[|segs| - 1].asns
  }

  /** One attribute on the common part; a non-empty AS4_PATH overrides, an AS_PATH only fills. */
  function AddAttr(base: Base, attr: PathAttr): Base {
    var p := base.path;
    match attr
    case Origin(o) => base.(path := p.(origin := o))
    case AsPath(segs) => if p.asPath == [] then base.(path := p.(asPath := FlatAsns(segs))) else base
    case As4Path(segs) => if FlatAsns(segs) != [] then base.(path := p.(asPath := FlatAsns(segs))) else base
    case NextHop(ip) => base.(path := p.(nextHop := Some(V4(ip))))
    case Communities(cs) => base.(path := p.(communities := cs))
    case MpReach(afi, safi, hop, _) => if safi == 1 then base.(reach := Some(Reach(afi, hop))) else base
    case MpUnreach(_, _, _) => base
  }

  function BaseOf(attrs: seq<PathAttr>): Base {
    if attrs == [] then Base(NO_PATH, None) else AddAttr(BaseOf(attrs[..|attrs| - 1]), attrs[|attrs| - 1])
  }

  function WithPath(ps: seq<Prefix>, path: BgpPath): (r: seq<Candidate>)
    ensures |r| == |ps|
  {
    if ps == [] then [] else WithPath(ps[..|ps| - 1], path) + [Candidate(ps[|ps| - 1], path)]
  }

  /** The prefixes of the MP_REACH attributes of one address family. */
  function Reached(attrs: seq<PathAttr>, afi: u16, path: BgpPath): seq<Candidate> {
    if attrs == [] then []
    else
      var front, last := Reached(attrs[..|attrs| - 1], afi, path), attrs[|attrs| - 1];
      if last.MpReach? && last.safi == 1 && last.afi == afi then front + WithPath(last.nlri, path) else front
  }

  function Announced(m: Message): seq<Candidate>
    requires m.Update?
  {
    var base := BaseOf(m.attrs);
    var v4 := WithPath(m.announced, base.path);
    if base.reach.None? then v4
    else v4 + Reached(m.attrs, base.reach.value.afi, base.path.(nextHop := Some(base.reach.value.hop)))
  }

  function Unreached(attrs: seq<PathAttr>): seq<Prefix> {
    if attrs == [] then []
    else
      var front, last := Unreached(attrs[..|attrs| - 1]), attrs[|attrs| - 1];
      if last.MpUnreach? && (last.afi == 1 || last.afi == 2) && last.safi == 1 then front + last.nlri else front
  }

  function WithdrawnBy(m: Message): seq<Prefix>
    requires m.Update?
  {
    m.withdrawn + Unreached(m.attrs)
  }

  method ExtractAnnounced(m: Message) returns (out: seq<Candidate>)
    requires m.Update?
    ensures out == Announced(m)
  {
    var base := Base(NO_PATH, None);
    for i := 0 to |m.attrs|
      invariant base == BaseOf(m.attrs[..i])
    {
      base := AddAttr(base, m.attrs[i]);
      assert m.attrs[..i + 1][..i] == m.attrs[..i];
    }
    assert m.attrs[..|m.attrs|] == m.attrs;
    out := Pair([], m.announced, base.path);
    assert out == WithPath(m.announced, base.path);
    if base.reach.Some? {
      var more := ExtractReached(m.attrs, base.reach.value.afi, base.path.(nextHop := Some(base.reach.value.hop)));
      out := out + more;
    }
  }

  method Pair(start: seq<Candidate>, ps: seq<Prefix>, path: BgpPath) returns (out: seq<Candidate>)
    ensures out == start + WithPath(ps, path)
  {
    out := start;
    for i := 0 to |ps|
      invariant out == start + WithPath(ps[..i], path)
    {
      out := out + [Candidate(ps[i], path)];
      assert ps[..i + 1][..i] == ps[..i];
    }
    assert ps[..|ps|] == ps;
  }

  method ExtractReached(attrs: seq<PathAttr>, afi: u16, path: BgpPath) returns (out: seq<Candidate>)
    ensures out == Reached(attrs, afi, path)
  {
    out := [];
    for i := 0 to |attrs|
      invariant out == Reached(attrs[..i], afi, path)
    {
      assert attrs[..i + 1][..i] == attrs[..i];
      var a := attrs[i];
      if a.MpReach? && a.safi == 1 && a.afi == afi { out := Pair(out, a.nlri, path); }
    }
    assert attrs[..|attrs|] == attrs;
  }

  method ExtractWithdrawn(m: Message) returns (out: seq<Prefix>)
    requires m.Update?
    ensures out == WithdrawnBy(m)
  {
    out := m.withdrawn;
    for i := 0 to |m.attrs|
      invariant out == m.withdrawn + Unreached(m.attrs[..i])
    {
      assert m.attrs[..i + 1][..i] == m.attrs[..i];
      var a := m.attrs[i];
      if a.MpUnreach? && (a.afi == 1 || a.afi == 2) && a.safi == 1 { out := out + a.nlri; }
    }
    assert m.attrs[..|m.attrs|] == m.attrs;
  }

  /** The last non-empty AS4_PATH of a list, if any. */
  function LastAs4(attrs: seq<PathAttr>): seq<u32> {
    if attrs == [] then []
    else
      var last := attrs[|attrs| - 1];
      if last.As4Path? && FlatAsns(last.segs) != [] then FlatAsns(last.segs) else LastAs4(attrs[..|attrs| - 1])
  }

  /** The first non-empty AS_PATH of a list, if any. */
  function FirstAs(attrs: seq<PathAttr>): seq<u32> {
    if attrs == [] then []
    else
      var front := FirstAs(attrs[..|attrs| - 1]);
      var last := attrs[|attrs| - 1];
      if front != [] then front else if last.AsPath? then FlatAsns(last.segs) else []
  }

  /** Wherever the two attributes stand, a non-empty AS4_PATH decides the path, and else the AS_PATH. */
  lemma {:induction false} As4PathWins(attrs: seq<PathAttr>)
    ensures BaseOf(attrs).path.asPath == if LastAs4(attrs) != [] then LastAs4(attrs) else FirstAs(attrs)
  {
    if attrs != [] { As4PathWins(attrs[..|attrs| - 1]); }
  }

  // ----- applying an UPDATE -----

  /** The RIB together with the counter of the policy that feeds it. */
  datatype State = State(table: Table, accepted: nat)

  datatype Outcome = Outcome(state: State, changes: seq<RouteChange>, rejected: seq<(Prefix, ImportReject)>,
      exceeded: bool)

  /** One announced route: rejected, replaced, added, or refused because the limit is reached. */
  function Announce(rules: Rules, st: State, peer: string, c: Candidate): Outcome {
    var verdict := Admit(rules, c.prefix, c.path);
    if verdict.Some? then Outcome(st, [], [(c.prefix, verdict.value)], false)
    else if Has(EntryAt(st.table, c.prefix).peers, peer) then
      Outcome(st.(table := Replace(st.table, peer, c.prefix, c.path)),
          ReplaceChanges(st.table, peer, c.prefix, c.path), [], false)
    else if Full(rules, st.accepted) then
      Outcome(st.(table := st.table[c.prefix := EntryAt(st.table, c.prefix)]), [], [], true)
    else
      var t := Add(st.table, peer, c.prefix, c.path);
      Outcome(State(t, st.accepted + 1), LearnedBest(c.prefix, t[c.prefix]), [], false)
  }

  function AnnounceAll(rules: Rules, st: State, peer: string, cs: seq<Candidate>): Outcome {
    if cs == [] then Outcome(st, [], [], false)
    else
      var o := AnnounceAll(rules, st, peer, cs[..|cs| - 1]);
      if o.exceeded then o
      else
        var o' := Announce(rules, o.state, peer, cs[|cs| - 1]);
        Outcome(o'.state, o.changes + o'.changes, o.rejected + o'.rejected, o'.exceeded)
  }

  datatype Emitted = Emitted(state: State, changes: seq<RouteChange>)

  function WithdrawOne(st: State, peer: string, prefix: Prefix): Emitted {
    var r := RemoveOne(st.table, peer, prefix);
    if r.Absent? then Emitted(st, [])
    else Emitted(State(r.table, if st.accepted == 0 then 0 else st.accepted - 1), r.changes)
  }

  function WithdrawAll(st: State, peer: string, ps: seq<Prefix>): Emitted {
    if ps == [] then Emitted(st, [])
    else
      var r := WithdrawAll(st, peer, ps[..|ps| - 1]);
      var r' := WithdrawOne(r.state, peer, ps[|ps| - 1]);
      Emitted(r'.state, r.changes + r'.changes)
  }

  /** An UPDATE: announcements first; when the limit is hit the withdrawals are not reached. */
  function Apply(rules: Rules, st: State, peer: string, m: Message): Outcome
    requires m.Update?
  {
    var o := AnnounceAll(rules, st, peer, Announced(m));
    if o.exceeded then o
    else
      var r := WithdrawAll(o.state, peer, WithdrawnBy(m));
      o.(state := r.state, changes := o.changes + r.changes)
  }

  // ----- the invariant -----

  /** Entries good, the counter exact and within the limit, every stored path admitted. */
  ghost predicate Consistent(rules: Rules, st: State) {
    && TableOk(st.table)
    && st.accepted == Count(st.table)
    && (rules.maxPrefixes.Some? ==> st.accepted <= rules.maxPrefixes.value)
    && (forall p, pp :: p in st.table && pp in st.table[p].peers ==> Admit(rules, p, pp.path).None?)
  }

  /** The state is good and a follower that held the old best paths and applies the changes holds the new ones. */
  ghost predicate InStep(rules: Rules, before: State, after: State, changes: seq<RouteChange>) {
    Consistent(rules, after) && Replay(BestTable(before.table), changes) == BestTable(after.table)
  }

  lemma InStepSequence(rules: Rules, a: State, b: State, c: State, first: seq<RouteChange>, second: seq<RouteChange>)
    requires InStep(rules, a, b, first) && InStep(rules, b, c, second)
    ensures InStep(rules, a, c, first + second)
  {
    ReplayConcat(BestTable(a.table), first, second);
  }

  lemma {:induction false} SetPathMembers(peers: seq<PeerPath>, peer: string, path: BgpPath, pp: PeerPath)
    requires pp in SetPath(peers, peer, path)
    ensures pp in peers || pp == PeerPath(peer, path)
  {
    if peers != [] && peers[0].peer != peer && pp != peers[0] { SetPathMembers(peers[1..], peer, path, pp); }
  }

  lemma AnnounceReplaces(rules: Rules, st: State, peer: string, c: Candidate)
    requires Consistent(rules, st) && Admit(rules, c.prefix, c.path).None?
            && Has(EntryAt(st.table, c.prefix).peers, peer)
    ensures var o := Announce(rules, st, peer, c); InStep(rules, st, o.state, o.changes)
  {
    ReplaceOk(st.table, peer, c.prefix, c.path);
    var t := Replace(st.table, peer, c.prefix, c.path);
    forall p, pp | p in t && pp in t[p].peers ensures Admit(rules, p, pp.path).None? {
      if p == c.prefix && t[p] != st.table[p] { SetPathMembers(st.table[p].peers, peer, c.path, pp); }
    }
  }

  lemma AnnounceAdds(rules: Rules, st: State, peer: string, c: Candidate)
    requires Consistent(rules, st) && Admit(rules, c.prefix, c.path).None?
    requires !Has(EntryAt(st.table, c.prefix).peers, peer) && !Full(rules, st.accepted)
    ensures var o := Announce(rules, st, peer, c); InStep(rules, st, o.state, o.changes)
  {
    AddOk(st.table, peer, c.prefix, c.path);
    var t := Add(st.table, peer, c.prefix, c.path);
    forall p, pp | p in t && pp in t[p].peers ensures Admit(rules, p, pp.path).None? {
      if p == c.prefix { assert pp in EntryAt(st.table, p).peers || pp == PeerPath(peer, c.path); }
    }
  }

  /** An entry without peers changes no best path and no count. */
  lemma EmptyEntryHarmless(t: Table, p: Prefix)
    requires TableOk(t) && p !in t
    ensures var t' := t[p := Entry([], None)];
            TableOk(t') && Count(t') == Count(t) && BestTable(t') == BestTable(t)
  {
    var e := Entry([], None);
    CountUpdate(t, p, e);
    BestTableUpdate(t, p, e);
    assert BestTable(t) - {p} == BestTable(t);
  }

  /** A refusal at the limit may leave such an entry behind. */
  lemma AnnounceRefused(rules: Rules, st: State, peer: string, c: Candidate)
    requires Consistent(rules, st) && Admit(rules, c.prefix, c.path).None?
    requires !Has(EntryAt(st.table, c.prefix).peers, peer) && Full(rules, st.accepted)
    ensures var o := Announce(rules, st, peer, c); InStep(rules, st, o.state, o.changes)
  {
    if c.prefix in st.table {
      assert st.table[c.prefix := st.table[c.prefix]] == st.table;
    } else {
      EmptyEntryHarmless(st.table, c.prefix);
    }
  }

  lemma AnnounceOk(rules: Rules, st: State, peer: string, c: Candidate)
    requires Consistent(rules, st)
    ensures var o := Announce(rules, st, peer, c); InStep(rules, st, o.state, o.changes)
  {
    if Admit(rules, c.prefix, c.path).None? {
      if Has(EntryAt(st.table, c.prefix).peers, peer) {
        AnnounceReplaces(rules, st, peer, c);
      } else if Full(rules, st.accepted) {
        AnnounceRefused(rules, st, peer, c);
      } else {
        AnnounceAdds(rules, st, peer, c);
      }
    }
  }

  lemma {:induction false} AnnounceAllOk(rules: Rules, st: State, peer: string, cs: seq<Candidate>)
    requires Consistent(rules, st)
    ensures var o := AnnounceAll(rules, st, peer, cs); InStep(rules, st, o.state, o.changes)
  {
    if cs != [] {
      var o := AnnounceAll(rules, st, peer, cs[..|cs| - 1]);
      AnnounceAllOk(rules, st, peer, cs[..|cs| - 1]);
      if !o.exceeded {
        var o' := Announce(rules, o.state, peer, cs[|cs| - 1]);
        AnnounceOk(rules, o.state, peer, cs[|cs| - 1]);
        InStepSequence(rules, st, o.state, o'.state, o.changes, o'.changes);
      }
    }
  }

  lemma WithdrawOneOk(rules: Rules, st: State, peer: string, prefix: Prefix)
    requires Consistent(rules, st)
    ensures var r := WithdrawOne(st, peer, prefix);
            && InStep(rules, st, r.state, r.changes)
            && !Has(EntryAt(r.state.table, prefix).peers, peer)
            && (forall q :: q != prefix ==> EntryAt(r.state.table, q) == EntryAt(st.table, q))
            && r.state.table.Keys <= st.table.Keys
  {
    RemoveOneOk(st.table, peer, prefix);
    var r := RemoveOne(st.table, peer, prefix);
    if r.Removed? { StillAdmitted(rules, st.table, peer, prefix); }
  }

  lemma StillAdmitted(rules: Rules, t: Table, peer: string, prefix: Prefix)
    requires forall p, pp :: p in t && pp in t[p].peers ==> Admit(rules, p, pp.path).None?
    requires RemoveOne(t, peer, prefix).Removed?
    ensures var t' := RemoveOne(t, peer, prefix).table;
            forall p, pp :: p in t' && pp in t'[p].peers ==> Admit(rules, p, pp.path).None?
  {}

  lemma {:induction false} WithdrawAllOk(rules: Rules, st: State, peer: string, ps: seq<Prefix>)
    requires Consistent(rules, st)
    ensures var r := WithdrawAll(st, peer, ps); InStep(rules, st, r.state, r.changes)
  {
    if ps != [] {
      var r := WithdrawAll(st, peer, ps[..|ps| - 1]);
      var r' := WithdrawOne(r.state, peer, ps[|ps| - 1]);
      WithdrawAllOk(rules, st, peer, ps[..|ps| - 1]);
      WithdrawOneOk(rules, r.state, peer, ps[|ps| - 1]);
      InStepSequence(rules, st, r.state, r'.state, r.changes, r'.changes);
    }
  }

  lemma ApplyOk(rules: Rules, st: State, peer: string, m: Message)
    requires m.Update? && Consistent(rules, st)
    ensures var o := Apply(rules, st, peer, m); InStep(rules, st, o.state, o.changes)
  {
    var o := AnnounceAll(rules, st, peer, Announced(m));
    AnnounceAllOk(rules, st, peer, Announced(m));
    if !o.exceeded {
      var r := WithdrawAll(o.state, peer, WithdrawnBy(m));
      WithdrawAllOk(rules, o.state, peer, WithdrawnBy(m));
      InStepSequence(rules, st, o.state, r.state, o.changes, r.changes);
    }
  }

  // ----- purging a peer -----

  ghost predicate Gone(t: Table, peer: string, prefix: Prefix) {
    !Has(EntryAt(t, prefix).peers, peer)
  }

  lemma {:induction false} PurgeSweeps(rules: Rules, st: State, peer: string, order: seq<Prefix>)
    requires Consistent(rules, st)
    ensures var t := WithdrawAll(st, peer, order).state.table;
            && t.Keys <= st.table.Keys
            && forall p :: p in order ==> Gone(t, peer, p)
    ensures forall p :: Gone(st.table, peer, p) ==> Gone(WithdrawAll(st, peer, order).state.table, peer, p)
  {
    if order != [] {
      var front, last := order[..|order| - 1], order[|order| - 1];
      PurgeSweeps(rules, st, peer, front);
      WithdrawAllOk(rules, st, peer, front);
      var r := WithdrawAll(st, peer, front);
      WithdrawOneOk(rules, r.state, peer, last);
      SweepStep(r.state.table, WithdrawOne(r.state, peer, last).state.table, peer, last);
      assert order == front + [last];
    }
  }

  lemma SweepStep(m: Table, t: Table, peer: string, last: Prefix)
    requires Gone(t, peer, last) && forall q :: q != last ==> EntryAt(t, q) == EntryAt(m, q)
    ensures forall p :: Gone(m, peer, p) ==> Gone(t, peer, p)
  {
    forall p | Gone(m, peer, p) ensures Gone(t, peer, p) {
      if p != last { assert EntryAt(t, p) == EntryAt(m, p); }
    }
  }

  /** After a purge over all prefixes, in any order, no prefix holds the peer. */
  lemma PurgeRemovesPeer(rules: Rules, st: State, peer: string, order: seq<Prefix>)
    requires Consistent(rules, st) && forall p :: p in st.table ==> p in order
    ensures var r := WithdrawAll(st, peer, order);
            InStep(rules, st, r.state, r.changes) && forall p :: Gone(r.state.table, peer, p)
  {
    WithdrawAllOk(rules, st, peer, order);
    PurgeSweeps(rules, st, peer, order);
    forall p ensures Gone(WithdrawAll(st, peer, order).state.table, peer, p) {
      if p !in st.table { assert Gone(st.table, peer, p); }
    }
  }

  // ----- whole runs -----

  datatype Op = UpdateOp(peer: string, update: Message) | PurgeOp(peer: string, order: seq<Prefix>)

  predicate ValidOp(op: Op) {
    op.UpdateOp? ==> op.update.Update?
  }

  /** The state after a run and every change emitted on the way. */
  function Run(rules: Rules, ops: seq<Op>): Emitted
    requires forall i :: 0 <= i < |ops| ==> ValidOp(ops[i])
  {
    if ops == [] then Emitted(State(map[], 0), [])
    else
      var r := Run(rules, ops[..|ops| - 1]);
      match ops[|ops| - 1]
      case UpdateOp(peer, m) =>
        assert ValidOp(ops[|ops| - 1]);
        var o := Apply(rules, r.state, peer, m);
        Emitted(o.state, r.changes + o.changes)
      case PurgeOp(peer, order) =>
        var o := WithdrawAll(r.state, peer, order);
        Emitted(o.state, r.changes + o.changes)
  }

  /**
   * In every run, replaying the stream from nothing gives the best-path table, and the counter is the number of stored
   * pairs.
   */
  lemma {:induction false} RunInStep(rules: Rules, ops: seq<Op>)
    requires forall i :: 0 <= i < |ops| ==> ValidOp(ops[i])
    ensures Consistent(rules, Run(rules, ops).state)
    ensures Replay(map[], Run(rules, ops).changes) == BestTable(Run(rules, ops).state.table)
  {
    if ops == [] {
      assert BestTable(map[]) == map[];
    } else {
      var r := Run(rules, ops[..|ops| - 1]);
      RunInStep(rules, ops[..|ops| - 1]);
      assert ValidOp(ops[|ops| - 1]);
      match ops[|ops| - 1]
      case UpdateOp(peer, m) =>
        ApplyOk(rules, r.state, peer, m);
        ReplayConcat(map[], r.changes, Apply(rules, r.state, peer, m).changes);
      case PurgeOp(peer, order) =>
        WithdrawAllOk(rules, r.state, peer, order);
        ReplayConcat(map[], r.changes, WithdrawAll(r.state, peer, order).changes);
    }
  }
}
