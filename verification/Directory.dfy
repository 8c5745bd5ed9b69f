/** The directory: reported endpoints, protocol versions and the version of the network map. */
module Directory {
  type NodeId = nat

  datatype Endpoints = Endpoints(local: seq<string>, seen: seq<string>)

  datatype Entries = Entries(netmapVersion: nat, endpoints: map<NodeId, Endpoints>, protocols: map<NodeId, nat>)

  const BLANK: Entries := Entries(0, map[], map[])

  /** The local endpoints, then the seen ones that are new. */
  function Merge(out: seq<string>, seen: seq<string>): (r: seq<string>)
    ensures out <= r
    ensures forall s :: s in r <==> s in out || s in seen
  {
    if seen == [] then out
    else
      var front, last := Merge(out, seen[..|seen| - 1]), seen[|seen| - 1];
      assert seen == seen[..|seen| - 1] + [last];
      if last in front then front else front + [last]
  }

  function MergedOf(d: Entries, node: NodeId): seq<string> {
    if node in d.endpoints then Merge(d.endpoints[node].local, d.endpoints[node].seen) else []
  }

  ghost predicate NoRepeats(s: seq<string>) {
    forall i, j :: 0 <= i < j < |s| ==> s[i] != s[j]
  }

  /** Merging adds no repetition. */
  lemma {:induction false} MergeNoRepeats(out: seq<string>, seen: seq<string>)
    requires NoRepeats(out)
    ensures NoRepeats(Merge(out, seen))
  {
    if seen != [] { MergeNoRepeats(out, seen[..|seen| - 1]); }
  }

  function ProtocolOf(d: Entries, node: NodeId): nat {
    if node in d.protocols then d.protocols[node] else 1
  }

  function Bump(d: Entries, times: nat): Entries {
    d.(netmapVersion := d.netmapVersion + times)
  }

  function SetEndpoints(d: Entries, node: NodeId, local: seq<string>, seen: seq<string>): Entries {
    Bump(d.(endpoints := d.endpoints[node := Endpoints(local, seen)]), 1)
  }

  class DirectoryObject {
    var netmapVersion: nat
    var endpoints: map<NodeId, Endpoints>
    var protocols: map<NodeId, nat>

    function Value(): Entries
      reads this
    {
      Entries(netmapVersion, endpoints, protocols)
    }

    constructor ()
      ensures Value() == BLANK
    {
      netmapVersion, endpoints, protocols := 0, map[], map[];
    }

    method ReportEndpoints(node: NodeId, local: seq<string>, seen: seq<string>)
      modifies this
      ensures Value() == SetEndpoints(old(Value()), node, local, seen)
    {
      endpoints := endpoints[node := Endpoints(local, seen)];
      netmapVersion := netmapVersion + 1;
    }

    method MergedEndpoints(node: NodeId) returns (out: seq<string>)
      ensures out == MergedOf(Value(), node)
    {
      if node !in endpoints { return []; }
      var e := endpoints[node];
      out := e.local;
      for i := 0 to |e.seen|
        invariant out == Merge(e.local, e.seen[..i])
      {
        assert e.seen[..i + 1][..i] == e.seen[..i];
        if e.seen[i] !in out { out := out + [e.seen[i]]; }
      }
      assert e.seen[..|e.seen|] == e.seen;
    }
  }
}
