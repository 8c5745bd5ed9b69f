/** The local RIB as the mutable object it is, method by method against the functions of module Rib. */
module LocRib {
  import opened Prefixes
  import opened WireModel
  import opened RibModel
  import opened Policy
  import opened Rib

  class LocRib {
    var entries: Table

    constructor ()
      ensures entries == map[]
    {
      entries := map[];
    }

    ghost function With(policy: ImportPolicy): State
      reads this, policy
    {
      State(entries, policy.accepted)
    }

    /** The stored best path of a prefix. */
    function Best(prefix: Prefix): (r: Option<BgpPath>)
      reads this
      ensures r.Some? <==> prefix in BestTable(entries)
      ensures r.Some? ==> r.value == BestTable(entries)[prefix]
    {
      if prefix in entries then BestPath(entries[prefix]) else None
    }

    method RemovePeer(peer: string, prefix: Prefix) returns (r: Option<seq<RouteChange>>)
      modifies this
      ensures RemoveOne(old(entries), peer, prefix) ==
              if r.None? then Absent else Removed(entries, r.value)
      ensures r.None? ==> entries == old(entries)
    {
      if prefix !in entries { return None; }
      var e := entries[prefix];
      var rest := Without(e.peers, peer);
      if |rest| == |e.peers| { return None; }
      if rest == [] {
        entries := entries - {prefix};
        r := Some([Withdrawn(prefix)]);
      } else {
        var best := SelectBest(rest);
        entries := entries[prefix := Entry(rest, best)];
        r := Some(if best == e.best then [] else LearnedBest(prefix, Entry(rest, best)));
      }
    }

    method WithdrawPrefix(peer: string, prefix: Prefix, policy: ImportPolicy) returns (changes: seq<RouteChange>)
      modifies this, policy
      ensures WithdrawOne(old(With(policy)), peer, prefix) == Emitted(With(policy), changes)
    {
      var r := RemovePeer(peer, prefix);
      if r.None? { return []; }
      policy.NoteWithdrawn();
      changes := r.value;
    }

    method WithdrawPrefixes(peer: string, ps: seq<Prefix>, policy: ImportPolicy) returns (changes: seq<RouteChange>)
      modifies this, policy
      ensures Rib.WithdrawAll(old(With(policy)), peer, ps) == Emitted(With(policy), changes)
    {
      changes := [];
      for i := 0 to |ps|
        invariant Rib.WithdrawAll(old(With(policy)), peer, ps[..i]) == Emitted(With(policy), changes)
      {
        assert ps[..i + 1][..i] == ps[..i];
        var more := WithdrawPrefix(peer, ps[i], policy);
        changes := changes + more;
      }
      assert ps[..|ps|] == ps;
    }

    /** One announced candidate through the policy. */
    method AnnounceOne(peer: string, c: Candidate, policy: ImportPolicy)
      returns (changes: seq<RouteChange>, rejected: seq<(Prefix, ImportReject)>, exceeded: bool)
      modifies this, policy
      ensures Announce(policy.rules, old(With(policy)), peer, c) == Outcome(With(policy), changes, rejected, exceeded)
    {
      changes, rejected, exceeded := [], [], false;
      var verdict := Admit(policy.rules, c.prefix, c.path);
      if verdict.Some? {
        rejected := [(c.prefix, verdict.value)];
        return;
      }
      var e := EntryAt(entries, c.prefix);
      if Has(e.peers, peer) {
        changes := ReplaceChanges(entries, peer, c.prefix, c.path);
        entries := Replace(entries, peer, c.prefix, c.path);
        return;
      }
      var ok := policy.NoteAccepted();
      if !ok {
        entries := entries[c.prefix := e];
        exceeded := true;
        return;
      }
      entries := Add(entries, peer, c.prefix, c.path);
      changes := LearnedBest(c.prefix, entries[c.prefix]);
    }

    method AnnounceMany(peer: string, cs: seq<Candidate>, policy: ImportPolicy)
      returns (changes: seq<RouteChange>, rejected: seq<(Prefix, ImportReject)>, exceeded: bool)
      modifies this, policy
      ensures AnnounceAll(policy.rules, old(With(policy)), peer, cs)
              == Outcome(With(policy), changes, rejected, exceeded)
    {
      changes, rejected, exceeded := [], [], false;
      for i := 0 to |cs|
        invariant !exceeded
        invariant AnnounceAll(policy.rules, old(With(policy)), peer, cs[..i])
                == Outcome(With(policy), changes, rejected, false)
      {
        assert cs[..i + 1][..i] == cs[..i];
        var more, refused, full := AnnounceOne(peer, cs[i], policy);
        changes, rejected, exceeded := changes + more, rejected + refused, full;
        if exceeded {
          Stopped(policy.rules, old(With(policy)), peer, cs, i + 1);
          return;
        }
      }
      assert cs[..|cs|] == cs;
    }

    /** An UPDATE from a peer: the follower stays in step, the counter exact. */
    method ApplyUpdate(peer: string, m: Message, policy: ImportPolicy)
      returns (changes: seq<RouteChange>, rejected: seq<(Prefix, ImportReject)>, exceeded: bool)
      requires m.Update? && Consistent(policy.rules, With(policy))
      modifies this, policy
      ensures Apply(policy.rules, old(With(policy)), peer, m) == Outcome(With(policy), changes, rejected, exceeded)
      ensures InStep(policy.rules, old(With(policy)), With(policy), changes)
    {
      ApplyOk(policy.rules, With(policy), peer, m);
      var cs := ExtractAnnounced(m);
      changes, rejected, exceeded := AnnounceMany(peer, cs, policy);
      if exceeded { return; }
      var ps := ExtractWithdrawn(m);
      var more := WithdrawPrefixes(peer, ps, policy);
      changes := changes + more;
    }

    /** Everything of a peer goes, in whatever order the keys come. */
    method PurgePeer(peer: string, policy: ImportPolicy) returns (changes: seq<RouteChange>)
      requires Consistent(policy.rules, With(policy))
      modifies this, policy
      ensures InStep(policy.rules, old(With(policy)), With(policy), changes)
      ensures forall p :: Gone(entries, peer, p)
    {
      var order := KeysInSomeOrder();
      PurgeRemovesPeer(policy.rules, With(policy), peer, order);
      changes := WithdrawPrefixes(peer, order, policy);
    }

    method KeysInSomeOrder() returns (order: seq<Prefix>)
      ensures forall p :: p in entries <==> p in order
    {
      var left := entries.Keys;
      order := [];
      while left != {}
        invariant left <= entries.Keys
        invariant forall p :: p in entries <==> p in left || p in order
        decreases |left|
      {
        var p :| p in left;
        left := left - {p};
        order := order + [p];
      }
    }
  }

  lemma {:induction false} Stopped(rules: Rules, st: State, peer: string, cs: seq<Candidate>, n: nat)
    requires n <= |cs| && AnnounceAll(rules, st, peer, cs[..n]).exceeded
    ensures AnnounceAll(rules, st, peer, cs) == AnnounceAll(rules, st, peer, cs[..n])
    decreases |cs| - n
  {
    if n < |cs| {
      assert cs[..n + 1][..n] == cs[..n];
      Stopped(rules, st, peer, cs, n + 1);
    } else {
      assert cs[..n] == cs;
    }
  }
}
