/**
 * Runs of a replica: entries of the log, heartbeats, a checkpoint atomic with the applied position, crashes and
 * reopenings.
 */
module ReplicaRuns {
  import opened Prefixes
  import opened Registries
  import opened CoordCore
  import opened Persistence
  import opened Recovery
  import opened Machine
  import opened KeyDrift
  import K = KeyRotation
  import WriteThrough

  /** State and applied position are written together. */
  datatype Disk = Nothing | Saved(state: CoordState, applied: nat, membership: Option<nat>)

  datatype Replica = Running(core: Core, applied: nat, membership: Option<nat>, disk: Disk) | Down(error: StoreError)

  /** A heartbeat that a replica serves flushes the rotations that are due, outside the log and without writing. */
  datatype MachineStep = ApplyNext(orders: Orders) | Heartbeat(now: nat) | Checkpoint | CrashAndReopen

  function Reopen(config: seq<NetConfig>, disk: Disk): Replica {
    if disk.Nothing? then Running(Configure(Fresh(config), config), 0, None, disk)
    else
      var x := RestoreState(Fresh(config), disk.state);
      if x.Inconsistent? then Down(x.error)
      else Running(Configure(x.core, config), disk.applied, disk.membership, disk)
  }

  function Flushed(c: Core, now: nat): Core {
    c.(domains := FlushAll(c.domains, now))
  }

  /** One step of a replica; a replica at the end of the log has nothing to apply. */
  function MachineNext(config: seq<NetConfig>, log: seq<Entry>, r: Replica, s: MachineStep): Replica {
    if r.Down? then r
    else match s
      case ApplyNext(orders) =>
        if r.applied >= |log| then r
        else Running(ApplyEntry(r.core, log[r.applied], r.applied, orders), r.applied + 1,
                     if log[r.applied].payload.Membership? then Some(r.applied) else r.membership, r.disk)
      case Heartbeat(now) => r.(core := Flushed(r.core, now))
      case Checkpoint => r.(disk := Saved(Snapshot(r.core), r.applied, r.membership))
      case CrashAndReopen => Reopen(config, r.disk)
  }

  function MachineRun(config: seq<NetConfig>, log: seq<Entry>, steps: seq<MachineStep>): Replica {
    if steps == [] then Reopen(config, Nothing)
    else MachineNext(config, log, MachineRun(config, log, steps[..|steps| - 1]), steps[|steps| - 1])
  }

  // ----- what memory and disk reflect -----

  /** An entry applied, with the hash-map orders it met, or a heartbeat served. */
  datatype Act = Applied(orders: Orders) | Beat(now: nat)

  datatype Trace = Trace(mem: seq<Act>, disk: seq<Act>)

  /** The applications among the acts. */
  function OrdersOf(acts: seq<Act>): (r: seq<Orders>)
    ensures |r| <= |acts|
  {
    if acts == [] then []
    else
      var front, last := OrdersOf(acts[..|acts| - 1]), acts[|acts| - 1];
      if last.Applied? then front + [last.orders] else front
  }

  /** The acts that memory, and the disk, still reflect. */
  function TraceOf(log: seq<Entry>, steps: seq<MachineStep>): (t: Trace)
    ensures |OrdersOf(t.mem)| <= |log| && |OrdersOf(t.disk)| <= |log|
  {
    if steps == [] then Trace([], [])
    else TraceNext(log, TraceOf(log, steps[..|steps| - 1]), steps[|steps| - 1])
  }

  function TraceNext(log: seq<Entry>, t: Trace, s: MachineStep): (t': Trace)
    requires |OrdersOf(t.mem)| <= |log| && |OrdersOf(t.disk)| <= |log|
    ensures |OrdersOf(t'.mem)| <= |log| && |OrdersOf(t'.disk)| <= |log|
  {
    match s
    case ApplyNext(orders) => if |OrdersOf(t.mem)| < |log| then t.(mem := t.mem + [Applied(orders)]) else t
    case Heartbeat(now) => t.(mem := t.mem + [Beat(now)])
    case Checkpoint => t.(disk := t.mem)
    case CrashAndReopen => t.(mem := t.disk)
  }

  /** Each entry once, in order, with the heartbeats where they came. */
  function Lived(config: seq<NetConfig>, log: seq<Entry>, acts: seq<Act>): Core
    requires |OrdersOf(acts)| <= |log|
  {
    if acts == [] then Configure(Fresh(config), config)
    else
      var front, last := acts[..|acts| - 1], acts[|acts| - 1];
      var c, n := Lived(config, log, front), |OrdersOf(front)|;
      if last.Applied? then ApplyEntry(c, log[n], n, last.orders) else Flushed(c, last.now)
  }

  /** What is on disk is a position with the core of exactly that position. */
  ghost predicate DiskOk(config: seq<NetConfig>, log: seq<Entry>, d: Disk, acts: seq<Act>) {
    && |OrdersOf(acts)| <= |log|
    && (d.Nothing? ==> acts == [])
    && (d.Saved? ==>
        && d.applied == |OrdersOf(acts)| && d.membership == LastMembership(log, d.applied)
        && d.state == Snapshot(Lived(config, log, acts)))
  }

  /** Memory holds what its acts give; so does the disk. */
  ghost predicate ReplicaOk(config: seq<NetConfig>, log: seq<Entry>, r: Replica, t: Trace) {
    && r.Running? && r.applied == |OrdersOf(t.mem)| <= |log|
    && r.core == Lived(config, log, t.mem) && r.membership == LastMembership(log, r.applied)
    && DiskOk(config, log, r.disk, t.disk)
  }

  // ----- heartbeats only move keys -----

  lemma FoldNext(config: seq<NetConfig>, log: seq<Entry>, orders: seq<Orders>, o: Orders)
    requires |orders| < |log|
    ensures Fold(config, log, |orders| + 1, orders + [o])
            == ApplyEntry(Fold(config, log, |orders|, orders), log[|orders|], |orders|, o)
  {
    var more := orders + [o];
    assert more[..|orders|] == orders[..|orders|];
    FoldPrefix(config, log, |orders|, orders, more);
  }

  lemma EntrySame(a: Core, b: Core, e: Entry, index: nat, orders: Orders)
    requires SameButKeys(a, b)
    ensures SameButKeys(ApplyEntry(a, e, index, orders), ApplyEntry(b, e, index, orders))
  {
    if e.payload.Normal? { CommandSame(a, b, e.payload.cmd, Anchor(index, e.term), orders); }
  }

  lemma FlushedSame(a: Core, b: Core, now: nat)
    requires SameButKeys(a, b)
    ensures SameButKeys(Flushed(a, now), b)
  {
    FlushDrifts(a.domains, now);
    SameTrans(Flushed(a, now).domains, a.domains, b.domains);
  }

  /** A heartbeat takes memory away from the log exactly when a rotation is due. */
  lemma HeartbeatDriftsExactly(c: Core, now: nat)
    ensures Flushed(c, now) != c <==> WriteThrough.Rotates(c, now)
  {
    if WriteThrough.Rotates(c, now) {
      var i :| 0 <= i < |c.domains| && K.Due(c.domains[i].keys, now);
      assert Flushed(c, now).domains[i].keys.version == c.domains[i].keys.version + 1;
    } else {
      WriteThrough.NothingDue(c, now);
    }
  }

  /** The entries applied, without the heartbeats. */
  function Logged(config: seq<NetConfig>, log: seq<Entry>, acts: seq<Act>): Core
    requires |OrdersOf(acts)| <= |log|
  {
    Fold(config, log, |OrdersOf(acts)|, OrdersOf(acts))
  }

  lemma LoggedNext(config: seq<NetConfig>, log: seq<Entry>, front: seq<Act>, last: Act, acts: seq<Act>, n: nat)
    requires acts == front + [last] && |OrdersOf(acts)| <= |log| && n == |OrdersOf(front)|
    ensures last.Beat? ==> Logged(config, log, acts) == Logged(config, log, front)
    ensures last.Applied? ==> n < |log|
    ensures last.Applied? ==>
              Logged(config, log, acts) == ApplyEntry(Logged(config, log, front), log[n], n, last.orders)
  {
    assert acts[..|acts| - 1] == front;
    if last.Applied? { FoldNext(config, log, OrdersOf(front), last.orders); }
  }

  /** Heartbeats come and go: what a replica holds differs from the plain replay of its entries in keys only. */
  lemma {:induction false} OnlyKeysDrift(config: seq<NetConfig>, log: seq<Entry>, acts: seq<Act>)
    requires |OrdersOf(acts)| <= |log|
    ensures SameButKeys(Lived(config, log, acts), Logged(config, log, acts))
  {
    if acts != [] {
      var front, last := acts[..|acts| - 1], acts[|acts| - 1];
      OnlyKeysDrift(config, log, front);
      LoggedNext(config, log, front, last, acts, |OrdersOf(front)|);
      DriftNext(config, log, front, last, acts, Lived(config, log, front), Logged(config, log, front));
    }
  }

  lemma DriftNext(config: seq<NetConfig>, log: seq<Entry>, front: seq<Act>, last: Act, acts: seq<Act>, a: Core, b: Core)
    requires acts != [] && front == acts[..|acts| - 1] && last == acts[|acts| - 1] && |OrdersOf(acts)| <= |log|
    requires a == Lived(config, log, front) && b == Logged(config, log, front) && SameButKeys(a, b)
    requires last.Beat? ==> Logged(config, log, acts) == b
    requires last.Applied? ==>
               Logged(config, log, acts) == ApplyEntry(b, log[|OrdersOf(front)|], |OrdersOf(front)|, last.orders)
    ensures SameButKeys(Lived(config, log, acts), Logged(config, log, acts))
  {
    if last.Applied? {
      EntrySame(a, b, log[|OrdersOf(front)|], |OrdersOf(front)|, last.orders);
    } else {
      FlushedSame(a, b, last.now);
    }
  }

  lemma SameConfigured(a: Core, b: Core, config: seq<NetConfig>)
    requires SameButKeys(a, b) && Configured(b, config) && PubkeysApart(b.domains)
    ensures Configured(a, config) && PubkeysApart(a.domains)
  {
    forall i | 0 <= i < |config| ensures ConfiguredNet(a.domains[i], config[i])
        && a.domains[i].registry == b.domains[i].registry {
      assert KeyDrift.SameNet(a.domains[i], b.domains[i]) && ConfiguredNet(b.domains[i], config[i]);
    }
  }

  lemma LivedOk(config: seq<NetConfig>, log: seq<Entry>, acts: seq<Act>)
    requires ConfigOk(config) && OneNetworkPerKey(log) && |OrdersOf(acts)| <= |log|
    ensures var c := Lived(config, log, acts); CoreOk(c) && Configured(c, config) && PubkeysApart(c.domains)
  {
    var a, b := Lived(config, log, acts), Logged(config, log, acts);
    OnlyKeysDrift(config, log, acts);
    FoldOk(config, log, |OrdersOf(acts)|, OrdersOf(acts));
    FoldApart(config, log, |OrdersOf(acts)|, OrdersOf(acts));
    SameOk(a, b);
    SameConfigured(a, b, config);
  }

  // ----- the steps -----

  lemma ReopenOk(config: seq<NetConfig>, log: seq<Entry>, d: Disk, acts: seq<Act>)
    requires ConfigOk(config) && OneNetworkPerKey(log) && DiskOk(config, log, d, acts)
    ensures ReplicaOk(config, log, Reopen(config, d), Trace(acts, acts))
  {
    if d.Saved? {
      LivedOk(config, log, acts);
      RestoreSnapshot(Lived(config, log, acts), config);
    }
  }

  lemma ReopenGives(config: seq<NetConfig>, log: seq<Entry>, d: Disk, acts: seq<Act>, r: Replica)
    requires ConfigOk(config) && OneNetworkPerKey(log) && DiskOk(config, log, d, acts) && r == Reopen(config, d)
    ensures ReplicaOk(config, log, r, Trace(acts, acts)) && r == Running(r.core, r.applied, r.membership, d)
    ensures r.applied == if d.Nothing? then 0 else d.applied
  {
    ReopenOk(config, log, d, acts);
  }

  lemma ApplyNextOk(config: seq<NetConfig>, log: seq<Entry>, r: Replica, t: Trace, o: Orders)
    requires ReplicaOk(config, log, r, t) && r.applied < |log|
    ensures ReplicaOk(config, log, MachineNext(config, log, r, ApplyNext(o)), t.(mem := t.mem + [Applied(o)]))
  {
    var more := t.mem + [Applied(o)];
    assert more[..|t.mem|] == t.mem;
  }

  lemma HeartbeatOk(config: seq<NetConfig>, log: seq<Entry>, r: Replica, t: Trace, now: nat)
    requires ReplicaOk(config, log, r, t)
    ensures ReplicaOk(config, log, MachineNext(config, log, r, Heartbeat(now)), t.(mem := t.mem + [Beat(now)]))
  {
    var more := t.mem + [Beat(now)];
    assert more[..|t.mem|] == t.mem;
  }

  lemma NextOk(config: seq<NetConfig>, log: seq<Entry>, r: Replica, t: Trace, s: MachineStep)
    requires ConfigOk(config) && OneNetworkPerKey(log) && ReplicaOk(config, log, r, t)
    ensures ReplicaOk(config, log, MachineNext(config, log, r, s), TraceNext(log, t, s))
  {
    match s
    case ApplyNext(orders) => if r.applied < |log| { ApplyNextOk(config, log, r, t, orders); }
    case Heartbeat(now) => HeartbeatOk(config, log, r, t, now);
    case Checkpoint =>
    case CrashAndReopen => ReopenOk(config, log, r.disk, t.disk);
  }

  lemma {:induction false} RunOk(config: seq<NetConfig>, log: seq<Entry>, steps: seq<MachineStep>)
    requires ConfigOk(config) && OneNetworkPerKey(log)
    ensures ReplicaOk(config, log, MachineRun(config, log, steps), TraceOf(log, steps))
  {
    if steps == [] {
      ReopenOk(config, log, Nothing, []);
    } else {
      RunOk(config, log, steps[..|steps| - 1]);
      var r, t := MachineRun(config, log, steps[..|steps| - 1]), TraceOf(log, steps[..|steps| - 1]);
      NextOk(config, log, r, t, steps[|steps| - 1]);
    }
  }

  /**
   * Over every interleaving of applying, heartbeats, checkpointing, crashing and reopening: reopening is never refused;
   * memory and disk hold each entry up to their position exactly once, with the heartbeats they saw; and but for keys
   * that is the plain replay of those entries.
   */
  lemma ExactlyOnce(config: seq<NetConfig>, log: seq<Entry>, steps: seq<MachineStep>)
    requires ConfigOk(config) && OneNetworkPerKey(log)
    ensures var r, t := MachineRun(config, log, steps), TraceOf(log, steps);
            && ReplicaOk(config, log, r, t)
            && SameButKeys(r.core, Logged(config, log, t.mem))
            && SameButKeys(Lived(config, log, t.disk), Logged(config, log, t.disk))
  {
    RunOk(config, log, steps);
    OnlyKeysDrift(config, log, TraceOf(log, steps).mem);
    OnlyKeysDrift(config, log, TraceOf(log, steps).disk);
  }
}
