/** Auditing a binding: replicas at different positions of one log, asked about the same claim. */
module Audit {
  import opened Prefixes
  import opened Registries
  import opened CoordCore
  import opened Persistence
  import opened Machine
  import A = AuthKey
  import P = PathModel

  datatype Verdict = Verified | Conflict | Unknown | Behind

  /** A claimed binding, with whether its signature checks out. */
  datatype Claim = Claim(node: NodeId, pubkey: Pubkey, binding: Binding, anchor: Anchor, signed: bool)

  function Lookup(c: Core, node: NodeId): Option<NodeEntry> {
    var i := DomainOf(c.domains, node);
    if i < |c.domains| && node in c.domains[i].registry.entries then Some(c.domains[i].registry.entries[node]) else None
  }

  /** The index of the last applied entry; zero when there is none. */
  function AppliedIndex(n: nat): nat {
    if n == 0 then 0 else n - 1
  }

  /** Signature, tombstone, progress, then the entry. */
  function AuditBinding(c: Core, applied: nat, claim: Claim): Verdict {
    if !claim.signed then Unknown
    else if claim.node in c.revoked then Unknown
    else if claim.anchor.index > applied then Behind
    else
      var e := Lookup(c, claim.node);
      if e.Some? && e.value.anchor == claim.anchor && e.value.pubkey == claim.pubkey && e.value.binding == claim.binding
      then Verified
      else Conflict
  }

  // ----- the orders of hash maps do not touch identities -----

  ghost predicate SameIdentity(a: Core, b: Core) {
    AllSameButSides(a.domains, b.domains) && a.nextNodeId == b.nextNodeId && a.revoked == b.revoked
  }

  lemma {:induction false} SameFindName(a: seq<Domain>, b: seq<Domain>, name: string)
    requires |a| == |b| && forall i :: 0 <= i < |a| ==> a[i].name == b[i].name
    ensures FindName(a, name) == FindName(b, name)
  {
    if a != [] { SameFindName(a[..|a| - 1], b[..|b| - 1], name); }
  }

  lemma SameFindNode(a: seq<Domain>, b: seq<Domain>, node: NodeId)
    requires |a| == |b| && forall i :: 0 <= i < |a| ==> a[i].registry == b[i].registry
    ensures FindNode(a, node) == FindNode(b, node)
  {
    var i, j := FindNode(a, node), FindNode(b, node);
    assert i < |a| ==> node in b[i].registry.entries;
    assert j < |b| ==> node in a[j].registry.entries;
  }

  lemma SameRegister(a: Core, b: Core, cmd: Command, anchor: Anchor)
    requires SameIdentity(a, b) && cmd.Register?
    ensures SameIdentity(RegisterNode(a, cmd, anchor).core, RegisterNode(b, cmd, anchor).core)
  {
    var parsed := A.Parse(cmd.key);
    if parsed.Key? { SameFindName(a.domains, b.domains, parsed.network); }
  }

  lemma SameFlushed(a: seq<Domain>, b: seq<Domain>, now: nat)
    requires AllSameButSides(a, b)
    ensures AllSameButSides(FlushAll(a, now), FlushAll(b, now))
  {}

  lemma SameDropped(ds: seq<Domain>, es: seq<Domain>, i: nat, d: Domain, e: Domain)
    requires AllSameButSides(ds, es) && i < |ds| && SameButSides(d, e)
    ensures AllSameButSides(ds[i := d], es[i := e])
  {}

  lemma DropSame(d: Domain, e: Domain, node: NodeId, now: nat, o: seq<P.Pair>, p: seq<P.Pair>)
    requires SameButSides(d, e)
    ensures SameButSides(DropNode(d, node, now, o), DropNode(e, node, now, p))
  {}

  lemma SameRevokeFound(a: Core, b: Core, node: NodeId, now: nat, anchor: Anchor, o: Orders, p: Orders, i: nat,
      ds: seq<Domain>, es: seq<Domain>)
    requires SameIdentity(a, b) && ds == FlushAll(a.domains, now) && es == FlushAll(b.domains, now)
    requires AllSameButSides(ds, es) && i == FindNode(ds, node) == FindNode(es, node) && i < |ds|
    ensures SameIdentity(RevokeNode(a, node, now, anchor, o), RevokeNode(b, node, now, anchor, p))
  {
    var d, e := DropNode(ds[i], node, now, o.pass), DropNode(es[i], node, now, p.pass);
    RevokeIs(a, node, now, anchor, o, ds, i, d);
    RevokeIs(b, node, now, anchor, p, es, i, e);
    DropSame(ds[i], es[i], node, now, o.pass, p.pass);
    SameDropped(ds, es, i, d, e);
  }

  lemma SameRevoke(a: Core, b: Core, node: NodeId, now: nat, anchor: Anchor, o: Orders, p: Orders)
    requires SameIdentity(a, b)
    ensures SameIdentity(RevokeNode(a, node, now, anchor, o), RevokeNode(b, node, now, anchor, p))
  {
    var ds, es := FlushAll(a.domains, now), FlushAll(b.domains, now);
    SameFlushed(a.domains, b.domains, now);
    SameFindNode(ds, es, node);
    if FindNode(ds, node) < |ds| { SameRevokeFound(a, b, node, now, anchor, o, p, FindNode(ds, node), ds, es); }
  }

  lemma SameQuiet(a: Core, b: Core, cmd: Command, anchor: Anchor, o: Orders, p: Orders)
    requires SameIdentity(a, b) && Quiet(cmd)
    ensures SameIdentity(ApplyCommand(a, cmd, anchor, o), ApplyCommand(b, cmd, anchor, p))
  {
    QuietEntries(a, cmd, anchor, o);
    QuietEntries(b, cmd, anchor, p);
    QuietRest(a, cmd, anchor, o);
    QuietRest(b, cmd, anchor, p);
  }

  lemma QuietRest(c: Core, cmd: Command, anchor: Anchor, o: Orders)
    requires Quiet(cmd)
    ensures var x := ApplyCommand(c, cmd, anchor, o); x.nextNodeId == c.nextNodeId && x.revoked == c.revoked
  {}

  lemma SameApply(a: Core, b: Core, cmd: Command, anchor: Anchor, o: Orders, p: Orders)
    requires SameIdentity(a, b)
    ensures SameIdentity(ApplyCommand(a, cmd, anchor, o), ApplyCommand(b, cmd, anchor, p))
  {
    if cmd.Register? {
      SameRegister(a, b, cmd, anchor);
    } else if cmd.Revoke? {
      SameRevoke(a, b, cmd.node, cmd.now, anchor, o, p);
    } else {
      SameQuiet(a, b, cmd, anchor, o, p);
    }
  }

  /** Who is registered and revoked after n entries depends on the log alone. */
  lemma {:induction false} FoldIdentity(config: seq<NetConfig>, log: seq<Entry>, n: nat, a: seq<Orders>, b: seq<Orders>)
    requires n <= |log| && n <= |a| && n <= |b|
    ensures SameIdentity(Fold(config, log, n, a), Fold(config, log, n, b))
  {
    if n > 0 {
      FoldIdentity(config, log, n - 1, a, b);
      if log[n - 1].payload.Normal? {
        SameApply(Fold(config, log, n - 1, a), Fold(config, log, n - 1, b), log[n - 1].payload.cmd,
                  Anchor(n - 1, log[n - 1].term), a[n - 1], b[n - 1]);
      }
    }
  }

  lemma SameAudit(a: Core, b: Core, applied: nat, claim: Claim)
    requires CoreOk(a) && CoreOk(b) && SameIdentity(a, b)
    ensures AuditBinding(a, applied, claim) == AuditBinding(b, applied, claim)
  {
    SameFindNode(a.domains, b.domains, claim.node);
    HomeOf(a, claim.node);
    HomeOf(b, claim.node);
  }

  lemma FoldAudit(config: seq<NetConfig>, log: seq<Entry>, n: nat, a: seq<Orders>, b: seq<Orders>, claim: Claim)
    requires ConfigOk(config) && n <= |log| && n <= |a| && n <= |b|
    ensures AuditBinding(Fold(config, log, n, a), AppliedIndex(n), claim)
            == AuditBinding(Fold(config, log, n, b), AppliedIndex(n), claim)
  {
    FoldIdentity(config, log, n, a, b);
    FoldOk(config, log, n, a);
    FoldOk(config, log, n, b);
    SameAudit(Fold(config, log, n, a), Fold(config, log, n, b), AppliedIndex(n), claim);
  }

  // ----- the life of an entry -----

  lemma LookupIs(c: Core, i: nat, node: NodeId)
    requires CoreOk(c) && i < |c.domains| && node in c.domains[i].registry.entries
    ensures Lookup(c, node) == Some(c.domains[i].registry.entries[node])
  {
    HomeOf(c, node);
  }

  /** Where a found entry is stored. */
  lemma Found(c: Core, node: NodeId) returns (i: nat)
    requires CoreOk(c)
    ensures Lookup(c, node).Some? ==>
      i < |c.domains| && node in c.domains[i].registry.entries && c.domains[i].registry.entries[node]
          == Lookup(c, node).value
    ensures Lookup(c, node).Some? ==> Lookup(c, node).value.nodeId == node && node < c.nextNodeId && node !in c.revoked
  {
    HomeOf(c, node);
    i := DomainOf(c.domains, node);
    if i < |c.domains| { assert RegistryOk(c.domains[i].registry, c.nextNodeId); }
  }

  /**
   * One command: entries stay as they are or end as tombstones, tombstones stay, and a new entry carries the command's
   * anchor.
   */
  ghost predicate Lives(c: Core, c': Core, anchor: Anchor, node: NodeId) {
    && (Lookup(c, node).Some? ==> Lookup(c', node) == Lookup(c, node) || node in c'.revoked)
    && (Lookup(c', node).Some? ==> Lookup(c', node) == Lookup(c, node) || Lookup(c', node).value.anchor == anchor)
    && (node in c.revoked ==> node in c'.revoked)
  }

  lemma NewcomerAnchored(c: Core, cmd: Command, anchor: Anchor, orders: Orders, node: NodeId)
    requires CoreOk(c) && CoreOk(ApplyCommand(c, cmd, anchor, orders))
    ensures var c' := ApplyCommand(c, cmd, anchor, orders);
            Lookup(c', node).Some? ==> Lookup(c', node) == Lookup(c, node) || Lookup(c', node).value.anchor == anchor
  {
    var c' := ApplyCommand(c, cmd, anchor, orders);
    var i := Found(c', node);
    if Lookup(c', node).Some? {
      SameLength(c, cmd, anchor, orders);
      CommandEntries(c, cmd, anchor, orders, i, node);
      var e := c'.domains[i].registry.entries[node];
      if e.nodeId in c.domains[i].registry.entries && c.domains[i].registry.entries[e.nodeId] == e {
        LookupIs(c, i, node);
      }
    }
  }

  lemma SameLength(c: Core, cmd: Command, anchor: Anchor, orders: Orders)
    ensures |ApplyCommand(c, cmd, anchor, orders).domains| == |c.domains|
  {}

  lemma RegisterLives(c: Core, cmd: Command, anchor: Anchor, node: NodeId)
    requires CoreOk(c) && cmd.Register? && Lookup(c, node).Some?
    ensures Lookup(RegisterNode(c, cmd, anchor).core, node) == Lookup(c, node)
  {
    var i := Found(c, node);
    var x := RegisterNode(c, cmd, anchor);
    var j := RegisterShape(c, cmd, anchor);
    RegisterCoreOk(c, cmd, anchor);
    if x.reply.Admitted? { LookupIs(x.core, i, node); }
  }

  lemma RevokeLives(c: Core, victim: NodeId, now: nat, anchor: Anchor, orders: Orders, node: NodeId)
    requires CoreOk(c) && Lookup(c, node).Some?
    ensures var c' := RevokeNode(c, victim, now, anchor, orders);
            if node == victim then node in c'.revoked else Lookup(c', node) == Lookup(c, node)
  {
    var i := Found(c, node);
    var c' := RevokeNode(c, victim, now, anchor, orders);
    RevokeCoreOk(c, victim, now, anchor, orders);
    if node != victim {
      RevokeEntries(c, victim, now, anchor, orders);
      LookupIs(c', i, node);
    } else {
      assert node in FlushAll(c.domains, now)[i].registry.entries;
    }
  }

  lemma QuietLives(c: Core, cmd: Command, anchor: Anchor, orders: Orders, node: NodeId)
    requires CoreOk(c) && Quiet(cmd) && Lookup(c, node).Some?
    ensures Lookup(ApplyCommand(c, cmd, anchor, orders), node) == Lookup(c, node)
  {
    var i := Found(c, node);
    var c' := ApplyCommand(c, cmd, anchor, orders);
    ApplyOk(c, cmd, anchor, orders);
    QuietEntries(c, cmd, anchor, orders);
    assert SameButSides(c.domains[i], c'.domains[i]);
    LookupIs(c', i, node);
  }

  lemma TombstonesStay(c: Core, cmd: Command, anchor: Anchor, orders: Orders)
    ensures c.revoked.Keys <= ApplyCommand(c, cmd, anchor, orders).revoked.Keys
  {}

  lemma CommandLives(c: Core, cmd: Command, anchor: Anchor, orders: Orders, node: NodeId)
    requires CoreOk(c)
    ensures Lives(c, ApplyCommand(c, cmd, anchor, orders), anchor, node)
  {
    ApplyOk(c, cmd, anchor, orders);
    NewcomerAnchored(c, cmd, anchor, orders, node);
    TombstonesStay(c, cmd, anchor, orders);
    if Lookup(c, node).Some? {
      if cmd.Register? {
        RegisterLives(c, cmd, anchor, node);
      } else if cmd.Revoke? {
        RevokeLives(c, cmd.node, cmd.now, anchor, orders, node);
      } else {
        QuietLives(c, cmd, anchor, orders, node);
      }
    }
  }

  lemma EntryLives(config: seq<NetConfig>, log: seq<Entry>, n: nat, orders: seq<Orders>, node: NodeId)
    requires ConfigOk(config) && 0 < n <= |log| && n <= |orders|
    ensures Lives(Fold(config, log, n - 1, orders), Fold(config, log, n, orders), Anchor(n - 1, log[n - 1].term), node)
  {
    FoldOk(config, log, n - 1, orders);
    var e := log[n - 1];
    if e.payload.Normal? {
      CommandLives(Fold(config, log, n - 1, orders), e.payload.cmd, Anchor(n - 1, e.term), orders[n - 1], node);
    }
  }

  /** Between two positions of the log. */
  ghost predicate Lived(c: Core, c': Core, m: nat, node: NodeId) {
    && (Lookup(c, node).Some? ==> Lookup(c', node) == Lookup(c, node) || node in c'.revoked)
    && (Lookup(c', node).Some? && Lookup(c', node).value.anchor.index < m ==> Lookup(c, node) == Lookup(c', node))
    && (node in c.revoked ==> node in c'.revoked)
  }

  lemma {:induction false} FoldLived(config: seq<NetConfig>, log: seq<Entry>, m: nat, n: nat, orders: seq<Orders>,
      node: NodeId, c: Core, d: Core)
    requires ConfigOk(config) && m <= n <= |log| && n <= |orders|
    requires c == Fold(config, log, m, orders) && d == Fold(config, log, n, orders)
    ensures Lived(c, d, m, node)
    decreases n
  {
    if m < n {
      var e := Fold(config, log, n - 1, orders);
      FoldLived(config, log, m, n - 1, orders, node, c, e);
      EntryLives(config, log, n, orders, node);
      LivedOn(c, e, d, m, Anchor(n - 1, log[n - 1].term), node);
    }
  }

  lemma LivedOn(c: Core, d: Core, d': Core, m: nat, anchor: Anchor, node: NodeId)
    requires Lived(c, d, m, node) && Lives(d, d', anchor, node) && anchor.index >= m
    ensures Lived(c, d', m, node)
  {}

  // ----- the verdicts -----

  /** A verified claim was registered at the log position it names, for that very public key. */
  lemma VerifiedMeans(config: seq<NetConfig>, log: seq<Entry>, n: nat, orders: seq<Orders>, claim: Claim)
    requires ConfigOk(config) && n <= |log| && n <= |orders|
    requires AuditBinding(Fold(config, log, n, orders), AppliedIndex(n), claim) == Verified
    ensures claim.anchor.index < n && claim.anchor.term == log[claim.anchor.index].term
    ensures IsRegister(log[claim.anchor.index]) && log[claim.anchor.index].payload.cmd.pubkey == claim.pubkey
    ensures claim.binding == Signed(claim.node, claim.pubkey, claim.anchor)
  {
    var c := Fold(config, log, n, orders);
    FoldOk(config, log, n, orders);
    var i := Found(c, claim.node);
    assert IssuedBy(log, n, c.domains[i].name, c.domains[i].registry.entries[claim.node]);
  }

  /** A replica further on agrees or has seen the revocation. */
  lemma LaterAgrees(c: Core, m: nat, d: Core, n: nat, claim: Claim)
    requires m <= n && claim.anchor.index < m && Lived(c, d, m, claim.node)
    requires AuditBinding(c, AppliedIndex(m), claim) == Verified
    ensures AuditBinding(d, AppliedIndex(n), claim) != Conflict
  {}

  /** A replica further back agrees or knows it is behind, unless it has applied nothing. */
  lemma EarlierAgrees(c: Core, m: nat, d: Core, n: nat, claim: Claim)
    requires n <= m && Lived(d, c, n, claim.node)
    requires AuditBinding(c, AppliedIndex(m), claim) == Verified
    requires n == 0 ==> Lookup(d, claim.node).None? && claim.node !in d.revoked
    ensures AuditBinding(d, AppliedIndex(n), claim) == Conflict <==> n == 0 && claim.anchor.index == 0
  {}

  /** With one choice of orders: where a claim verifies at m, the verdict at n. */
  lemma VerdictAt(config: seq<NetConfig>, log: seq<Entry>, m: nat, n: nat, orders: seq<Orders>, claim: Claim)
    requires ConfigOk(config) && m <= |log| && n <= |log| && m <= |orders| && n <= |orders|
    requires AuditBinding(Fold(config, log, m, orders), AppliedIndex(m), claim) == Verified
    ensures AuditBinding(Fold(config, log, n, orders), AppliedIndex(n), claim) == Conflict <==>
            n == 0 && claim.anchor.index == 0
  {
    VerifiedMeans(config, log, m, orders, claim);
    if m <= n {
      FoldLived(config, log, m, n, orders, claim.node, Fold(config, log, m, orders), Fold(config, log, n, orders));
      LaterAgrees(Fold(config, log, m, orders), m, Fold(config, log, n, orders), n, claim);
    } else {
      FoldLived(config, log, n, m, orders, claim.node, Fold(config, log, n, orders), Fold(config, log, m, orders));
      if n == 0 { EmptyStart(config, claim.node); }
      EarlierAgrees(Fold(config, log, m, orders), m, Fold(config, log, n, orders), n, claim);
    }
  }

  lemma EmptyStart(config: seq<NetConfig>, node: NodeId)
    requires ConfigOk(config)
    ensures var c := Configure(Fresh(config), config); Lookup(c, node).None? && node !in c.revoked
  {
    StartOk(config);
    var c := Configure(Fresh(config), config);
    var i := Found(c, node);
  }

  /**
   * Two replicas of one log contradict each other about a claim in one case only: the claim was issued by the very
   * first entry of the log, and one of the replicas has applied nothing yet.
   */
  lemma SplitVerdictExactly(config: seq<NetConfig>, log: seq<Entry>, m: nat, a: seq<Orders>, n: nat, b: seq<Orders>,
      claim: Claim)
    requires ConfigOk(config) && m <= |log| && n <= |log| && m <= |a| && n <= |b|
    requires AuditBinding(Fold(config, log, m, a), AppliedIndex(m), claim) == Verified
    ensures AuditBinding(Fold(config, log, n, b), AppliedIndex(n), claim) == Conflict <==>
            n == 0 && claim.anchor.index == 0
  {
    if m <= n {
      FoldAudit(config, log, m, a, b, claim);
      VerdictAt(config, log, m, n, b, claim);
    } else {
      FoldAudit(config, log, n, b, a, claim);
      VerdictAt(config, log, m, n, a, claim);
    }
  }

  /** As a cluster's log starts with its membership, replicas of it never contradict each other. */
  lemma NoSplitVerdict(config: seq<NetConfig>, log: seq<Entry>, m: nat, a: seq<Orders>, n: nat, b: seq<Orders>,
      claim: Claim)
    requires ConfigOk(config) && m <= |log| && n <= |log| && m <= |a| && n <= |b|
    requires log != [] ==> log[0].payload.Membership?
    ensures !(AuditBinding(Fold(config, log, m, a), AppliedIndex(m), claim) == Verified
              && AuditBinding(Fold(config, log, n, b), AppliedIndex(n), claim) == Conflict)
  {
    if AuditBinding(Fold(config, log, m, a), AppliedIndex(m), claim) == Verified {
      VerifiedMeans(config, log, m, a, claim);
      SplitVerdictExactly(config, log, m, a, n, b, claim);
    }
  }

  function FirstClaim(e: Entry): Claim
    requires IsRegister(e)
  {
    var pubkey, anchor := e.payload.cmd.pubkey, Anchor(0, e.term);
    Claim(1, pubkey, Signed(1, pubkey, anchor), anchor, true)
  }

  lemma FirstVerified(config: seq<NetConfig>, e: Entry)
    requires ConfigOk(config) && IsRegister(e)
    requires RegisterNode(Configure(Fresh(config), config), e.payload.cmd, Anchor(0, e.term)).reply.Admitted?
    ensures var x := RegisterNode(Configure(Fresh(config), config), e.payload.cmd, Anchor(0, e.term));
            AuditBinding(x.core, AppliedIndex(1), FirstClaim(e)) == Verified
  {
    var start, cmd, anchor := Configure(Fresh(config), config), e.payload.cmd, Anchor(0, e.term);
    StartOk(config);
    var i := RegisterShape(start, cmd, anchor);
    RegisterCoreOk(start, cmd, anchor);
    LookupIs(RegisterNode(start, cmd, anchor).core, i, 1);
  }

  /** The exception is real: a registration admitted as the first entry. */
  lemma FirstEntrySplits(config: seq<NetConfig>, log: seq<Entry>, orders: Orders)
    requires ConfigOk(config) && log != [] && IsRegister(log[0])
    requires RegisterNode(Configure(Fresh(config), config), log[0].payload.cmd, Anchor(0, log[0].term)).reply.Admitted?
    ensures AuditBinding(Fold(config, log, 1, [orders]), AppliedIndex(1), FirstClaim(log[0])) == Verified
    ensures AuditBinding(Fold(config, log, 0, []), AppliedIndex(0), FirstClaim(log[0])) == Conflict
  {
    EmptyStart(config, 1);
    FirstVerified(config, log[0]);
    assert Fold(config, log, 0, [orders]) == Configure(Fresh(config), config);
  }
}
