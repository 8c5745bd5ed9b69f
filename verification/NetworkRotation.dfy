/** The rotation window of every network of a coordinator, over whole runs. */
module NetworkRotation {
  import opened Registries
  import opened CoordCore
  import opened CoordinatorModel
  import opened Prefixes
  import A = AuthKey
  import K = KeyRotation

  /** What a step does to the keys of one network. */
  function KeyOps(c: Coordinator, op: Op, i: nat): seq<K.KeyOp> {
    match op
    case Logged(Revoke(node, now), _, _) =>
      if FindNode(FlushAll(c.core.domains, now), node) == i then [K.Revoked(now)] else [K.Flushed(now)]
    case Logged(FlushRevokeRotations(now), _, _) => [K.Flushed(now)]
    case Logged(RotateMasterKey(name), _, _) => if FindName(c.core.domains, name) == i then [K.Rotated] else []
    case Heartbeat(_, now) => [K.Flushed(now)]
    case _ => []
  }

  lemma RevokeKeys(c: Core, node: NodeId, now: nat, anchor: Anchor, orders: Orders, i: nat)
    requires i < |c.domains|
    ensures var ds := RevokeNode(c, node, now, anchor, orders).domains;
            && |ds| == |c.domains|
            && ds[i].keys == K.Step(c.domains[i].keys, if FindNode(FlushAll(c.domains, now), node) == i
                then K.Revoked(now) else K.Flushed(now))
  {
    var ds := FlushAll(c.domains, now);
    var j := FindNode(ds, node);
    if j < |ds| { RevokeIs(c, node, now, anchor, orders, ds, j, DropNode(ds[j], node, now, orders.pass)); }
  }

  predicate TouchesKeys(cmd: Command) {
    cmd.Revoke? || cmd.FlushRevokeRotations? || cmd.RotateMasterKey?
  }

  lemma OtherCommandKeys(c: Core, cmd: Command, anchor: Anchor, orders: Orders, i: nat)
    requires i < |c.domains| && !TouchesKeys(cmd)
    ensures var ds := ApplyCommand(c, cmd, anchor, orders).domains;
            |ds| == |c.domains| && ds[i].keys == c.domains[i].keys
  {}

  lemma CommandKeys(c: Coordinator, cmd: Command, anchor: Anchor, orders: Orders, i: nat)
    requires i < |c.core.domains|
    ensures var ds := ApplyCommand(c.core, cmd, anchor, orders).domains;
            |ds| == |c.core.domains|
                && ds[i].keys == K.Run(c.core.domains[i].keys, KeyOps(c, Logged(cmd, anchor, orders), i))
  {
    var k, h := c.core.domains[i].keys, KeyOps(c, Logged(cmd, anchor, orders), i);
    if cmd.Revoke? {
      RevokeKeys(c.core, cmd.node, cmd.now, anchor, orders, i);
      OneKeyOp(k, h[0]);
    } else if cmd.FlushRevokeRotations? {
      OneKeyOp(k, h[0]);
    } else if cmd.RotateMasterKey? {
      OneKeyOp(k, K.Rotated);
    } else {
      OtherCommandKeys(c.core, cmd, anchor, orders, i);
    }
  }

  lemma ConfigKeys(c: Coordinator, name: string, d: Domain, i: nat)
    requires i < |c.core.domains| && Named(c, name).Some? && d.keys == Named(c, name).value.keys
    ensures var ds := UpdateDomain(c, name, d).core.domains;
            |ds| == |c.core.domains| && ds[i].keys == c.core.domains[i].keys
  {}

  lemma StepKeys(c: Coordinator, op: Op, i: nat)
    requires i < |c.core.domains|
    ensures |Step(c, op).core.domains| == |c.core.domains|
    ensures Step(c, op).core.domains[i].keys == K.Run(c.core.domains[i].keys, KeyOps(c, op, i))
  {
    match op
    case Logged(cmd, anchor, orders) => CommandKeys(c, cmd, anchor, orders, i);
    case Heartbeat(_, now) => OneKeyOp(c.core.domains[i].keys, K.Flushed(now));
    case MarkOffline(_) =>
    case Takeover(_) =>
    case SetProtocol(_, _) =>
    case AddKey(key, policy) => KeyChangeKeys(c, key, Some(policy), i);
    case RemoveKey(key) => KeyChangeKeys(c, key, None, i);
    case SetWhitelist(name, whitelist) =>
      if Named(c, name).Some? {
        var d := Named(c, name).value;
        ConfigKeys(c, name, d.(registry := d.registry.(whitelist := whitelist)), i);
      }
    case SetAcl(name, enabled) =>
      if Named(c, name).Some? { ConfigKeys(c, name, Named(c, name).value.(aclEnabled := enabled), i); }
    case SetExitAllow(name, allow) =>
      if Named(c, name).Some? { ConfigKeys(c, name, Named(c, name).value.(exitAllow := allow), i); }
  }

  lemma KeyChangeKeys(c: Coordinator, key: string, add: Option<KeyPolicy>, i: nat)
    requires i < |c.core.domains|
    ensures var ds := ChangeKey(c, key, add).core.domains;
            |ds| == |c.core.domains| && ds[i].keys == c.core.domains[i].keys
  {
    var parsed := A.Parse(key);
    if parsed.Key? && Named(c, parsed.network).Some? {
      var d := Named(c, parsed.network).value;
      var r := if add.Some? then AddAuthKey(d.registry, key, add.value) else RemoveAuthKey(d.registry, key);
      ConfigKeys(c, parsed.network, d.(registry := r), i);
    }
  }

  lemma OneKeyOp(k: K.Keys, op: K.KeyOp)
    ensures K.Run(k, [op]) == K.Step(k, op)
  {
    assert [op][..0] == [];
  }

  function KeyHistory(c: Coordinator, ops: seq<Op>, i: nat): seq<K.KeyOp> {
    if ops == [] then []
    else KeyHistory(c, ops[..|ops| - 1], i) + KeyOps(Run(c, ops[..|ops| - 1]), ops[|ops| - 1], i)
  }

  lemma {:induction false} KeyRunConcat(k: K.Keys, a: seq<K.KeyOp>, b: seq<K.KeyOp>)
    ensures K.Run(k, a + b) == K.Run(K.Run(k, a), b)
  {
    if b == [] {
      assert a + b == a;
    } else {
      assert (a + b)[..|a + b| - 1] == a + b[..|b| - 1];
      KeyRunConcat(k, a, b[..|b| - 1]);
    }
  }

  lemma {:induction false} RunKeys(c: Coordinator, ops: seq<Op>, i: nat)
    requires i < |c.core.domains|
    ensures |Run(c, ops).core.domains| == |c.core.domains|
    ensures Run(c, ops).core.domains[i].keys == K.Run(c.core.domains[i].keys, KeyHistory(c, ops, i))
  {
    if ops != [] {
      var front := ops[..|ops| - 1];
      RunKeys(c, front, i);
      StepKeys(Run(c, front), ops[|ops| - 1], i);
      KeyRunConcat(c.core.domains[i].keys, KeyHistory(c, front, i), KeyOps(Run(c, front), ops[|ops| - 1], i));
    }
  }

  // ----- the clock -----

  predicate Timed(op: Op) {
    op.Heartbeat? || (op.Logged? && (op.cmd.Revoke? || op.cmd.FlushRevokeRotations?))
  }

  function Time(op: Op): nat
    requires Timed(op)
  {
    if op.Heartbeat? then op.now else op.cmd.now
  }

  function Clock(start: nat, ops: seq<Op>): nat {
    if ops == [] then start
    else if Timed(ops[|ops| - 1]) then Time(ops[|ops| - 1])
    else Clock(start, ops[..|ops| - 1])
  }

  predicate Monotone(start: nat, ops: seq<Op>) {
    ops == [] ||
    (var front, last := ops[..|ops| - 1], ops[|ops| - 1];
     Monotone(start, front) && (Timed(last) ==> Clock(start, front) <= Time(last)))
  }

  lemma KeyOpsTimed(c: Coordinator, op: Op, i: nat)
    ensures Timed(op) ==>
            |KeyOps(c, op, i)| == 1 && !KeyOps(c, op, i)[0].Rotated? && KeyOps(c, op, i)[0].now == Time(op)
    ensures !Timed(op) ==> KeyOps(c, op, i) == [] || KeyOps(c, op, i) == [K.Rotated]
  {}

  lemma SnocMonotone(start: nat, h: seq<K.KeyOp>, op: K.KeyOp)
    requires K.Monotone(start, h) && (!op.Rotated? ==> K.Clock(start, h) <= op.now)
    ensures K.Monotone(start, h + [op]) && K.Clock(start, h + [op]) == if op.Rotated? then K.Clock(start, h) else op.now
  {
    assert (h + [op])[..|h|] == h;
  }

  lemma {:induction false} HistoryMonotone(c: Coordinator, start: nat, ops: seq<Op>, i: nat)
    requires Monotone(start, ops)
    ensures K.Monotone(start, KeyHistory(c, ops, i)) && K.Clock(start, KeyHistory(c, ops, i)) == Clock(start, ops)
  {
    if ops != [] {
      var front, last := ops[..|ops| - 1], ops[|ops| - 1];
      HistoryMonotone(c, start, front, i);
      var h, more := KeyHistory(c, front, i), KeyOps(Run(c, front), last, i);
      KeyOpsTimed(Run(c, front), last, i);
      if more == [] {
        assert h + more == h;
      } else {
        assert more == [more[0]];
        SnocMonotone(start, h, more[0]);
      }
    }
  }

  // ----- the promises -----

  /** The step revokes a node of the network. */
  predicate RevokesIn(c: Coordinator, op: Op, i: nat) {
    op.Logged? && op.cmd.Revoke? && FindNode(FlushAll(c.core.domains, op.cmd.now), op.cmd.node) == i
  }

  predicate Flushes(op: Op) {
    op.Heartbeat? || (op.Logged? && op.cmd.FlushRevokeRotations?)
  }

  /**
   * After a revocation at time t, the first flush or heartbeat at or after t + 60 leaves the network with a later key
   * version.
   */
  lemma RevokedKeysRotate(c: Coordinator, before: seq<Op>, revoke: Op, revoked: Coordinator, after: seq<Op>,
      flush: Op, flushed: Coordinator, i: nat)
    requires i < |c.core.domains| && c.core.domains[i].keys == K.FRESH
    requires RevokesIn(Run(c, before), revoke, i) && revoked == Step(Run(c, before), revoke)
    requires Flushes(flush) && flushed == Step(Run(revoked, after), flush)
    requires Monotone(0, before) && Clock(0, before) <= Time(revoke) && Monotone(Time(revoke), after)
    requires Clock(Time(revoke), after) <= Time(flush) && Time(flush) >= Time(revoke) + K.REVOKE_ROTATION_WINDOW_SECS
    ensures |revoked.core.domains| == |flushed.core.domains| == |c.core.domains|
    ensures flushed.core.domains[i].keys.version > revoked.core.domains[i].keys.version
  {
    KeyOpIs(Run(c, before), revoke, i);
    var g := KeysUpTo(c, 0, before, revoke, revoked, i, K.Revoked(Time(revoke)));
    KeyOpIs(Run(revoked, after), flush, i);
    var h := KeysUpTo(revoked, Time(revoke), after, flush, flushed, i, K.Flushed(Time(flush)));
    Delivered(c.core.domains[i].keys, revoked.core.domains[i].keys, flushed.core.domains[i].keys, g, Time(revoke), h,
        Time(flush));
  }

  lemma KeyOpIs(c: Coordinator, op: Op, i: nat)
    ensures RevokesIn(c, op, i) ==> KeyOps(c, op, i) == [K.Revoked(Time(op))]
    ensures Flushes(op) ==> KeyOps(c, op, i) == [K.Flushed(Time(op))]
  {}

  lemma Delivered(k: K.Keys, revoked: K.Keys, flushed: K.Keys, g: seq<K.KeyOp>, t: nat, h: seq<K.KeyOp>, now: nat)
    requires k == K.FRESH && revoked == K.Step(K.Run(k, g), K.Revoked(t))
            && flushed == K.Step(K.Run(revoked, h), K.Flushed(now))
    requires K.Monotone(0, g) && K.Clock(0, g) <= t && K.Monotone(t, h)
    requires K.Clock(t, h) <= now && now >= t + K.REVOKE_ROTATION_WINDOW_SECS
    ensures flushed.version > revoked.version
  {
    K.RotationDelivered(g, t, h, now);
  }

  /** The keys of a network after a run and one more step, as a history of what happened to them. */
  lemma KeysUpTo(c: Coordinator, start: nat, ops: seq<Op>, op: Op, last: Coordinator, i: nat, k: K.KeyOp)
      returns (h: seq<K.KeyOp>)
    requires i < |c.core.domains| && Monotone(start, ops) && last == Step(Run(c, ops), op)
            && KeyOps(Run(c, ops), op, i) == [k]
    ensures |last.core.domains| == |c.core.domains|
            && last.core.domains[i].keys == K.Step(K.Run(c.core.domains[i].keys, h), k)
    ensures K.Monotone(start, h) && K.Clock(start, h) == Clock(start, ops)
  {
    h := KeyHistory(c, ops, i);
    HistoryMonotone(c, start, ops, i);
    RunThenStep(c, ops, op, i, k);
  }

  lemma RunThenStep(c: Coordinator, ops: seq<Op>, op: Op, i: nat, k: K.KeyOp)
    requires i < |c.core.domains| && KeyOps(Run(c, ops), op, i) == [k]
    ensures |Step(Run(c, ops), op).core.domains| == |c.core.domains|
    ensures Step(Run(c, ops), op).core.domains[i].keys
            == K.Step(K.Run(c.core.domains[i].keys, KeyHistory(c, ops, i)), k)
  {
    RunKeys(c, ops, i);
    StepOneKey(Run(c, ops), op, i, k);
  }

  lemma StepOneKey(c: Coordinator, op: Op, i: nat, k: K.KeyOp)
    requires i < |c.core.domains| && KeyOps(c, op, i) == [k]
    ensures |Step(c, op).core.domains| == |c.core.domains|
    ensures Step(c, op).core.domains[i].keys == K.Step(c.core.domains[i].keys, k)
  {
    StepKeys(c, op, i);
    OneKeyOp(c.core.domains[i].keys, k);
  }

  /** Rotations a window caused in one network lie at least 60 seconds apart. */
  lemma WindowsSpaced(c: Coordinator, start: nat, ops: seq<Op>, i: nat)
    requires i < |c.core.domains| && Monotone(start, ops)
    ensures K.Spaced(K.WindowRotations(c.core.domains[i].keys, KeyHistory(c, ops, i)))
  {
    HistoryMonotone(c, start, ops, i);
    K.RotationsSpaced(c.core.domains[i].keys, start, KeyHistory(c, ops, i));
  }
}
