/** A replica as an object: batches from the log, one checkpoint per batch, reopening after a crash, and audits. */
module StateMachine {
  import opened Prefixes
  import opened Registries
  import opened CoordCore
  import opened Persistence
  import opened Machine
  import opened ReplicaRuns
  import KeyDrift
  import opened Audit

  function Applications(orders: seq<Orders>): seq<Act> {
    if orders == [] then [] else Applications(orders[..|orders| - 1]) + [Applied(orders[|orders| - 1])]
  }

  lemma TraceSnoc(mem: seq<Act>, orders: seq<Orders>, i: nat)
    requires i < |orders|
    ensures mem + Applications(orders[..i]) + [Applied(orders[i])] == mem + Applications(orders[..i + 1])
  {
    assert orders[..i + 1][..i] == orders[..i];
  }

  /** What memory holds when the disk is read back. */
  method Restart(config: seq<NetConfig>, disk: Disk, ghost log: seq<Entry>, ghost acts: seq<Act>)
      returns (core: Core, applied: nat, membership: Option<nat>)
    requires ConfigOk(config) && OneNetworkPerKey(log) && DiskOk(config, log, disk, acts)
    ensures ReplicaOk(config, log, Running(core, applied, membership, disk), Trace(acts, acts))
    ensures applied == if disk.Nothing? then 0 else disk.applied
  {
    var r := ReplicaRuns.Reopen(config, disk);
    ReopenGives(config, log, disk, acts, r);
    core, applied, membership := r.core, r.applied, r.membership;
  }

  /** Keys have no say in an audit. */
  lemma DriftAudit(a: Core, b: Core, applied: nat, claim: Claim)
    requires KeyDrift.SameButKeys(a, b)
    ensures AuditBinding(a, applied, claim) == AuditBinding(b, applied, claim)
  {
    KeyDrift.SameHome(a.domains, b.domains, claim.node);
    var i := DomainOf(a.domains, claim.node);
    if i < |a.domains| { assert KeyDrift.SameNet(a.domains[i], b.domains[i]); }
  }

  class CoordStateMachine {
    const config: seq<NetConfig>
    var core: Core
    var applied: nat
    var membership: Option<nat>
    var disk: Disk
    /** The one agreed log. */
    ghost const log: seq<Entry>
    /** What was done on the way to what memory and disk hold. */
    ghost var trace: Trace

    /** Memory and disk hold what their positions in the log say. */
    ghost predicate Valid()
      reads this
    {
      && ConfigOk(config) && OneNetworkPerKey(log)
      && ReplicaOk(config, log, Running(core, applied, membership, disk), trace)
    }

    constructor (config: seq<NetConfig>, ghost log: seq<Entry>)
      requires ConfigOk(config) && OneNetworkPerKey(log)
      ensures Valid() && this.config == config && this.log == log && applied == 0 && disk == Nothing
    {
      this.config, this.log := config, log;
      core := Configure(Fresh(config), config);
      applied, membership, disk := 0, None, Nothing;
      trace := Trace([], []);
      ReopenOk(config, log, Nothing, []);
    }

    /** One entry in memory. */
    method ApplyEntryNow(e: Entry, orders: Orders)
      requires Valid() && applied < |log| && e == log[applied]
      modifies this`core, this`applied, this`membership, this`trace
      ensures Valid() && applied == old(applied) + 1 && core == ApplyEntry(old(core), e, old(applied), orders)
      ensures trace == old(trace).(mem := old(trace).mem + [Applied(orders)])
    {
      ApplyNextOk(config, log, Running(core, applied, membership, disk), trace, orders);
      trace := trace.(mem := trace.mem + [Applied(orders)]);
      match e.payload {
        case Blank =>
        case Membership(_) => membership := Some(applied);
        case Normal(cmd) => core := ApplyCommand(core, cmd, Anchor(applied, e.term), orders);
      }
      applied := applied + 1;
    }

    /** A heartbeat flushes the rotations that are due; nothing is written. */
    method Heartbeat(now: nat)
      requires Valid()
      modifies this`core, this`trace
      ensures Valid() && core == Flushed(old(core), now) && KeyDrift.SameButKeys(core, old(core))
      ensures trace == old(trace).(mem := old(trace).mem + [Beat(now)])
    {
      HeartbeatOk(config, log, Running(core, applied, membership, disk), trace, now);
      KeyDrift.FlushDrifts(core.domains, now);
      trace := trace.(mem := trace.mem + [Beat(now)]);
      core := core.(domains := FlushAll(core.domains, now));
    }

    /** Memory after the first i entries of a batch that began at a position. */
    ghost predicate Amid(entries: seq<Entry>, orders: seq<Orders>, i: nat, start: nat, was: Trace)
      reads this
    {
      && Valid() && i <= |entries| == |orders| && applied == start + i
      && start + |entries| <= |log| && entries == log[start..start + |entries|]
      && trace == was.(mem := was.mem + Applications(orders[..i]))
    }

    method ApplyOne(entries: seq<Entry>, orders: seq<Orders>, i: nat, ghost start: nat, ghost was: Trace)
      requires i < |entries| && Amid(entries, orders, i, start, was)
      modifies this`core, this`applied, this`membership, this`trace
      ensures Amid(entries, orders, i + 1, start, was)
    {
      assert entries[i] == log[applied];
      TraceSnoc(was.mem, orders, i);
      ApplyEntryNow(entries[i], orders[i]);
    }

    /** A batch in memory. */
    method ApplyAll(entries: seq<Entry>, orders: seq<Orders>)
      requires Amid(entries, orders, 0, applied, trace)
      modifies this`core, this`applied, this`membership, this`trace
      ensures Amid(entries, orders, |entries|, old(applied), old(trace))
    {
      for i := 0 to |entries|
        invariant Amid(entries, orders, i, old(applied), old(trace))
      {
        ApplyOne(entries, orders, i, old(applied), old(trace));
      }
    }

    /** A batch, then the state and the position written together. */
    method ApplyBatch(entries: seq<Entry>, orders: seq<Orders>)
      requires Valid() && |orders| == |entries|
      requires applied + |entries| <= |log| && entries == log[applied..applied + |entries|]
      modifies this
      ensures Valid() && applied == old(applied) + |entries|
      ensures disk == Saved(Snapshot(core), applied, membership)
      ensures trace.mem == old(trace).mem + Applications(orders) == trace.disk
    {
      assert orders[..0] == [] && orders[..|orders|] == orders;
      ApplyAll(entries, orders);
      disk := Saved(Snapshot(core), applied, membership);
      trace := trace.(disk := trace.mem);
    }

    /** After a crash: what the disk holds is accepted, and the replica continues after the saved position. */
    method Reopen()
      requires Valid()
      modifies this`core, this`applied, this`membership, this`trace
      ensures Valid() && trace == Trace(old(trace).disk, old(trace).disk)
      ensures applied == if old(disk).Nothing? then 0 else old(disk).applied
    {
      var restored, position, members := Restart(config, disk, log, trace.disk);
      trace := Trace(trace.disk, trace.disk);
      core, applied, membership := restored, position, members;
    }

    /** Answers from the applied state alone; what it verifies stands in the log. */
    method AuditClaim(claim: Claim) returns (verdict: Verdict)
      requires Valid()
      ensures verdict == AuditBinding(core, AppliedIndex(applied), claim)
      ensures verdict == Verified ==>
                && claim.anchor.index < applied && IsRegister(log[claim.anchor.index])
                && log[claim.anchor.index].payload.cmd.pubkey == claim.pubkey
    {
      verdict := AuditBinding(core, AppliedIndex(applied), claim);
      if verdict == Verified {
        var c := Logged(config, log, trace.mem);
        OnlyKeysDrift(config, log, trace.mem);
        DriftAudit(core, c, AppliedIndex(applied), claim);
        VerifiedMeans(config, log, applied, OrdersOf(trace.mem), claim);
      }
    }
  }
}
