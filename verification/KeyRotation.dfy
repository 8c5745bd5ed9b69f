/** The key version of a network and the window that batches the rotations revocations ask for. */
module KeyRotation {
  import opened Prefixes

  const REVOKE_ROTATION_WINDOW_SECS: nat := 60

  datatype Keys = Keys(version: nat, pending: Option<nat>)

  const FRESH: Keys := Keys(1, None)

  function Arm(k: Keys, deadline: nat): Keys {
    if k.pending.None? then k.(pending := Some(deadline)) else k
  }

  predicate Due(k: Keys, now: nat) {
    k.pending.Some? && now >= k.pending.value
  }

  function Take(k: Keys, now: nat): Keys {
    if Due(k, now) then Keys(k.version + 1, None) else k
  }

  /** An explicit rotation also absorbs the window. */
  function Rotate(k: Keys): Keys {
    Keys(k.version + 1, None)
  }

  class KeyManager {
    var version: nat
    var pending: Option<nat>

    function Value(): Keys
      reads this
    {
      Keys(version, pending)
    }

    constructor ()
      ensures Value() == FRESH
    {
      version, pending := 1, None;
    }

    method ArmRevokeRotation(deadline: nat)
      modifies this
      ensures Value() == Arm(old(Value()), deadline)
    {
      if pending.None? { pending := Some(deadline); }
    }

    method TakeRevokeRotation(now: nat) returns (rotated: bool)
      modifies this
      ensures rotated == Due(old(Value()), now) && Value() == Take(old(Value()), now)
    {
      rotated := pending.Some? && now >= pending.value;
      if rotated { version, pending := version + 1, None; }
    }
  }

  // ----- what happens to one network's keys -----

  /** A revocation first takes what is due, then opens a window unless one is open. */
  datatype KeyOp = Revoked(now: nat) | Flushed(now: nat) | Rotated

  function Step(k: Keys, op: KeyOp): Keys {
    match op
    case Revoked(now) => Arm(Take(k, now), now + REVOKE_ROTATION_WINDOW_SECS)
    case Flushed(now) => Take(k, now)
    case Rotated => Rotate(k)
  }

  function Run(k: Keys, ops: seq<KeyOp>): Keys {
    if ops == [] then k else Step(Run(k, ops[..|ops| - 1]), ops[|ops| - 1])
  }

  function Clock(start: nat, ops: seq<KeyOp>): nat {
    if ops == [] then start
    else if ops[|ops| - 1].Rotated? then Clock(start, ops[..|ops| - 1])
    else ops[|ops| - 1].now
  }

  predicate Monotone(start: nat, ops: seq<KeyOp>) {
    ops == [] ||
    (var front, last := ops[..|ops| - 1], ops[|ops| - 1];
     Monotone(start, front) && (last.Rotated? || Clock(start, front) <= last.now))
  }

  /** An open window ends within its length. */
  predicate WindowOk(k: Keys, clock: nat) {
    k.pending.Some? ==> k.pending.value <= clock + REVOKE_ROTATION_WINDOW_SECS
  }

  lemma {:induction false} RunWindowOk(k: Keys, start: nat, ops: seq<KeyOp>)
    requires WindowOk(k, start) && Monotone(start, ops)
    ensures WindowOk(Run(k, ops), Clock(start, ops)) && start <= Clock(start, ops)
  {
    if ops != [] { RunWindowOk(k, start, ops[..|ops| - 1]); }
  }

  /** Since a revocation at time t: the version moved on, or a window ending by t + 60 is still open. */
  lemma {:induction false} RotationOwed(k: Keys, t: nat, after: seq<KeyOp>)
    requires WindowOk(k, t) && Monotone(t, after)
    ensures var r := Step(k, Revoked(t));
            var x := Run(r, after);
            && x.version >= r.version
            && (x.version > r.version || (x.pending.Some? && x.pending.value <= t + REVOKE_ROTATION_WINDOW_SECS))
  {
    if after != [] { RotationOwed(k, t, after[..|after| - 1]); }
  }

  /** A revocation at time t is followed by a rotation no later than the first flush at or after t + 60. */
  lemma RotationDelivered(before: seq<KeyOp>, t: nat, after: seq<KeyOp>, now: nat)
    requires Monotone(0, before) && Clock(0, before) <= t && Monotone(t, after)
    requires Clock(t, after) <= now && now >= t + REVOKE_ROTATION_WINDOW_SECS
    ensures var r := Step(Run(FRESH, before), Revoked(t));
            Step(Run(r, after), Flushed(now)).version > r.version
  {
    RunWindowOk(FRESH, 0, before);
    RotationOwed(Run(FRESH, before), t, after);
  }

  /** The times at which an expired window rotated the keys. */
  function WindowRotations(k: Keys, ops: seq<KeyOp>): seq<nat> {
    if ops == [] then []
    else
      var front, last := ops[..|ops| - 1], ops[|ops| - 1];
      if !last.Rotated? && Due(Run(k, front), last.now) then WindowRotations(k, front) + [last.now]
      else WindowRotations(k, front)
  }

  ghost predicate Spaced(ts: seq<nat>) {
    forall i, j :: 0 <= i < j < |ts| ==> ts[j] >= ts[i] + REVOKE_ROTATION_WINDOW_SECS
  }

  /** Any two window rotations lie at least 60 seconds apart, and an open window keeps that distance to all of them. */
  lemma {:induction false} RotationsSpaced(k: Keys, start: nat, ops: seq<KeyOp>)
    requires Monotone(start, ops)
    ensures Spaced(WindowRotations(k, ops))
    ensures forall t :: t in WindowRotations(k, ops) ==> t <= Clock(start, ops)
    ensures forall t :: t in WindowRotations(k, ops) && Run(k, ops).pending.Some? ==>
              Run(k, ops).pending.value >= t + REVOKE_ROTATION_WINDOW_SECS
  {
    if ops != [] {
      var front := ops[..|ops| - 1];
      RotationsSpaced(k, start, front);
      var ts := WindowRotations(k, front);
      assert forall i :: 0 <= i < |ts| ==> ts[i] in ts;
    }
  }

  /** Several revocations inside one window cost one rotation. */
  lemma {:induction false} BatchedOnce(k: Keys, t: nat, revocations: seq<nat>)
    requires k.pending.None?
    requires forall i :: 0 <= i < |revocations| ==> t <= revocations[i] < t + REVOKE_ROTATION_WINDOW_SECS
    ensures var x := Run(Step(k, Revoked(t)), Revocations(revocations));
            x == Keys(k.version, Some(t + REVOKE_ROTATION_WINDOW_SECS))
  {
    if revocations != [] {
      BatchedOnce(k, t, revocations[..|revocations| - 1]);
      assert Revocations(revocations)[..|revocations| - 1] == Revocations(revocations[..|revocations| - 1]);
    }
  }

  function Revocations(ts: seq<nat>): (r: seq<KeyOp>)
    ensures |r| == |ts|
  {
    if ts == [] then [] else Revocations(ts[..|ts| - 1]) + [Revoked(ts[|ts| - 1])]
  }
}
