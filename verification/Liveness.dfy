/** Leases: when a node was last heard of, and which nodes count as offline. */
module Liveness {
  type NodeId = nat

  const LEASE_EXPIRY_SECS: nat := 60

  datatype Leases = Leases(lastSeen: map<NodeId, nat>, offline: set<NodeId>)

  const NOBODY: Leases := Leases(map[], {})

  function Heartbeat(l: Leases, node: NodeId, now: nat): Leases {
    Leases(l.lastSeen[node := now], l.offline - {node})
  }

  /** A lease stamped ahead of the clock has age zero. */
  predicate Expired(l: Leases, node: NodeId, now: nat) {
    node in l.lastSeen && now - l.lastSeen[node] > LEASE_EXPIRY_SECS
  }

  function NewlyOffline(l: Leases, now: nat): set<NodeId> {
    set n | n in l.lastSeen && Expired(l, n, now) && n !in l.offline
  }

  function Sweep(l: Leases, now: nat): Leases {
    l.(offline := l.offline + NewlyOffline(l, now))
  }

  function Forget(l: Leases, node: NodeId): Leases {
    Leases(l.lastSeen - {node}, l.offline - {node})
  }

  /** A heartbeat and the sweep after it: the sender is online, expired leases are not, nobody else changes,
      and the table of the offline changed exactly when the call reports it. */
  lemma HeartbeatSweeps(l: Leases, node: NodeId, now: nat)
    ensures var beat := Heartbeat(l, node, now);
            var r := Sweep(beat, now);
            && node !in r.offline
            && (forall n :: n != node ==> (n in r.offline <==> n in l.offline || Expired(l, n, now)))
            && (r.offline != l.offline <==> node in l.offline || NewlyOffline(beat, now) != {})
  {
    var beat := Heartbeat(l, node, now);
    var gone := NewlyOffline(beat, now);
    assert node !in gone;
    if gone != {} {
      var n :| n in gone;
      assert n in Sweep(beat, now).offline && n !in l.offline;
    }
  }

  class LivenessObject {
    var lastSeen: map<NodeId, nat>
    var offline: seq<NodeId>

    function Value(): Leases
      reads this
    {
      Leases(lastSeen, set n | n in offline)
    }

    constructor ()
      ensures Value() == NOBODY
    {
      lastSeen, offline := map[], [];
    }

    method Beat(node: NodeId, now: nat) returns (wasOffline: bool)
      modifies this
      ensures Value() == Heartbeat(old(Value()), node, now) && wasOffline == (node in old(Value()).offline)
    {
      wasOffline := node in offline;
      lastSeen := lastSeen[node := now];
      Drop(node);
    }

    /** Keeps every node but one in the offline list. */
    method Drop(node: NodeId)
      modifies this`offline
      ensures (set n | n in offline) == (set n | n in old(offline)) - {node}
    {
      var kept := [];
      for i := 0 to |offline|
        invariant offline == old(offline)
        invariant forall n :: n in kept <==> n in offline[..i] && n != node
      {
        if offline[i] != node { kept := kept + [offline[i]]; }
        assert offline[..i + 1] == offline[..i] + [offline[i]];
      }
      assert offline[..|offline|] == offline;
      offline := kept;
    }

    /** Marks every expired lease, in whatever order the table lists them. */
    method SweepLeases(now: nat) returns (expired: seq<NodeId>)
      modifies this`offline
      ensures Value() == Sweep(old(Value()), now)
      ensures forall n :: n in expired <==> n in NewlyOffline(old(Value()), now)
    {
      expired := [];
      var left := lastSeen.Keys;
      while left != {}
        invariant offline == old(offline) && left <= lastSeen.Keys
        invariant forall n :: n in expired <==> n in NewlyOffline(Value(), now) && n !in left
        decreases |left|
      {
        var n :| n in left;
        left := left - {n};
        if now - lastSeen[n] > LEASE_EXPIRY_SECS && n !in offline { expired := expired + [n]; }
      }
      offline := offline + expired;
    }

    method MarkOffline(node: NodeId) returns (marked: bool)
      modifies this`offline
      ensures marked == (node !in old(Value()).offline)
      ensures Value() == old(Value()).(offline := old(Value()).offline + {node})
    {
      marked := node !in offline;
      if marked { offline := offline + [node]; }
    }

    method Remove(node: NodeId)
      modifies this
      ensures Value() == Forget(old(Value()), node)
    {
      lastSeen := lastSeen - {node};
      Drop(node);
    }
  }
}
