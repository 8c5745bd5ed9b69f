/** The route map service: the mutable tables, the calls on them and the version of the table. */
module RouteMap {
  import opened Bytes
  import opened Prefixes
  import opened RouteMapModel

  const U64_MAX: nat := 0xFFFF_FFFF_FFFF_FFFF

  datatype Sync = Sync(node: u32, announced: seq<(Prefix, string)>, withdrawn: seq<Prefix>, coverage: seq<Prefix>,
      cap: nat, now: nat)

  datatype Outcome = Outcome(accepted: nat, outOfCoverage: nat, overCap: nat, damped: nat, changed: bool)

  function AnnounceAt(s: Sync, i: nat): Step
    requires i < |s.announced|
  {
    Announce(Key(s.announced[i].0, s.node), s.announced[i].1, s.coverage, s.cap, s.now)
  }

  function Announcements(s: Sync, n: nat): seq<Step>
    requires n <= |s.announced|
  {
    if n == 0 then []
    else Announcements(s, n - 1) + [AnnounceAt(s, n - 1)]
  }

  function Withdrawals(s: Sync, n: nat): seq<Step>
    requires n <= |s.withdrawn|
  {
    if n == 0 then [] else Withdrawals(s, n - 1) + [Withdraw(Key(s.withdrawn[n - 1], s.node), s.now)]
  }

  /** A report is its announcements, then its withdrawals. */
  function StepsOf(s: Sync): seq<Step> {
    Announcements(s, |s.announced|) + Withdrawals(s, |s.withdrawn|)
  }

  function Bump(version: nat, changed: bool): nat {
    if changed && version < U64_MAX then version + 1 else version
  }

  function VerdictOf(st: State, s: Step): Verdict {
    match s
    case Announce(k, hop, coverage, cap, now) => AnnounceStep(st, k, hop, coverage, cap, now).verdict
    case Withdraw(k, now) => WithdrawStep(st, k, now).verdict
    case NodeGone(_, _) => Dropped
  }

  function Count(o: Outcome, v: Verdict): Outcome {
    match v
    case Accepted => o.(accepted := o.accepted + 1)
    case OutOfCoverage => o.(outOfCoverage := o.outOfCoverage + 1)
    case OverCap => o.(overCap := o.overCap + 1)
    case Damped => o.(damped := o.damped + 1)
    case _ => o
  }

  datatype Progress = Progress(state: State, out: Outcome)

  /** One step on tables and tallies. */
  function Advance(p: Progress, s: Step): Progress {
    var st := Apply(p.state, s);
    Progress(st, Count(p.out, VerdictOf(p.state, s)).(changed := p.out.changed
        || p.state.entries.Keys != st.entries.Keys))
  }

  /** The tables and the tallies after some steps. */
  function After(start: State, steps: seq<Step>): Progress {
    if steps == [] then Progress(start, Outcome(0, 0, 0, 0, false))
    else Advance(After(start, steps[..|steps| - 1]), steps[|steps| - 1])
  }

  lemma {:induction false} RunConcat(st: State, a: seq<Step>, b: seq<Step>)
    ensures RunFrom(st, a + b) == RunFrom(RunFrom(st, a), b)
  {
    if b == [] {
      assert a + b == a;
    } else {
      assert (a + b)[..|a + b| - 1] == a + b[..|b| - 1];
      RunConcat(st, a, b[..|b| - 1]);
    }
  }

  lemma AfterSnoc(start: State, steps: seq<Step>, s: Step)
    ensures After(start, steps + [s]) == Advance(After(start, steps), s)
  {
    assert (steps + [s])[..|steps|] == steps;
  }

  /** The tables are those of the run, and the flag says exactly whether a route entered or left on the way. */
  lemma {:induction false} AfterMeans(start: State, steps: seq<Step>)
    ensures After(start, steps).state == RunFrom(start, steps)
    ensures After(start, steps).out.changed == Transitions(start, steps)
    ensures !After(start, steps).out.changed ==> RunFrom(start, steps).entries.Keys == start.entries.Keys
  {
    if steps != [] { AfterMeans(start, steps[..|steps| - 1]); }
  }

  class RouteMapService {
    var entries: map<Key, string>
    var perNode: map<u32, nat>
    var flaps: map<Key, seq<nat>>
    var dampedUntil: map<Key, nat>
    var version: nat
    /** Every elementary step so far. */
    ghost var steps: seq<Step>

    ghost function Contents(): State
      reads this
    {
      State(entries, perNode, flaps, dampedUntil)
    }

    /** The tables are those of the run, so the run theorems apply. */
    ghost predicate Valid()
      reads this
    {
      Contents() == RunFrom(EMPTY, steps) && version <= U64_MAX
    }

    constructor ()
      ensures Valid() && steps == [] && version == 0
    {
      entries, perNode, flaps, dampedUntil := map[], map[], map[], map[];
      version := 0;
      steps := [];
    }

    /** Records a flip and tells whether the limit is reached. */
    method Flip(k: Key, now: nat) returns (hit: bool)
      modifies this`flaps
      ensures flaps == old(flaps)[k := Flipped(old(Contents()), k, now)]
      ensures hit <==> |flaps[k]| >= FLAP_LIMIT
    {
      var ts := Recent(if k in flaps then flaps[k] else [], now) + [now];
      flaps := flaps[k := ts];
      hit := |ts| >= FLAP_LIMIT;
    }

    method AnnounceOne(k: Key, hop: string, coverage: seq<Prefix>, cap: nat, now: nat) returns (v: Verdict, isNew: bool)
      modifies this`entries, this`perNode, this`flaps, this`dampedUntil
      ensures Apply(old(Contents()), Announce(k, hop, coverage, cap, now)) == Contents()
      ensures v == VerdictOf(old(Contents()), Announce(k, hop, coverage, cap, now))
      ensures isNew <==> old(entries).Keys != entries.Keys
    {
      isNew := false;
      if k in dampedUntil && now < dampedUntil[k] { return Damped, false; }
      if !Covered(k.prefix, coverage) { return OutOfCoverage, false; }
      var absent := k !in entries;
      var held := if k.node in perNode then perNode[k.node] else 0;
      if absent && held >= cap { return OverCap, false; }
      if absent {
        var hit := Flip(k, now);
        if hit {
          dampedUntil := dampedUntil[k := now + FLAP_WINDOW_SECS];
          return Damped, false;
        }
        perNode := perNode[k.node := held + 1];
        assert k !in old(entries).Keys;
        isNew := true;
      }
      entries := entries[k := hop];
      v := Accepted;
    }

    method WithdrawOne(k: Key, now: nat) returns (v: Verdict, left: bool)
      modifies this`entries, this`perNode, this`flaps, this`dampedUntil
      ensures Apply(old(Contents()), Withdraw(k, now)) == Contents()
              && v == VerdictOf(old(Contents()), Withdraw(k, now))
      ensures left <==> old(entries).Keys != entries.Keys
    {
      if k in dampedUntil && now < dampedUntil[k] { return Damped, false; }
      if k !in entries { return Unknown, false; }
      var hit := Flip(k, now);
      if hit { dampedUntil := dampedUntil[k := now + FLAP_WINDOW_SECS]; }
      assert k in old(entries).Keys;
      entries := entries - {k};
      if k.node in perNode {
        perNode := perNode[k.node := if perNode[k.node] == 0 then 0 else perNode[k.node] - 1];
      }
      return Dropped, true;
    }

    method AnnounceNext(s: Sync, i: nat, before: Outcome, ghost start: State, ghost done: seq<Step>)
        returns (out: Outcome)
      requires i < |s.announced| && Progress(Contents(), before) == After(start, done + Announcements(s, i))
      modifies this`entries, this`perNode, this`flaps, this`dampedUntil
      ensures Progress(Contents(), out) == After(start, done + Announcements(s, i + 1))
    {
      var (p, hop) := s.announced[i];
      assert done + Announcements(s, i + 1) == done + Announcements(s, i) + [AnnounceAt(s, i)];
      AfterSnoc(start, done + Announcements(s, i), AnnounceAt(s, i));
      var v, isNew := AnnounceOne(Key(p, s.node), hop, s.coverage, s.cap, s.now);
      out := Count(before, v).(changed := before.changed || isNew);
    }

    method AnnounceAll(s: Sync, before: Outcome, ghost start: State, ghost done: seq<Step>) returns (out: Outcome)
      requires Progress(Contents(), before) == After(start, done)
      modifies this`entries, this`perNode, this`flaps, this`dampedUntil
      ensures Progress(Contents(), out) == After(start, done + Announcements(s, |s.announced|))
    {
      out := before;
      assert done + [] == done;
      for i := 0 to |s.announced|
        invariant Progress(Contents(), out) == After(start, done + Announcements(s, i))
      {
        out := AnnounceNext(s, i, out, start, done);
      }
    }

    method WithdrawNext(s: Sync, i: nat, before: Outcome, ghost start: State, ghost done: seq<Step>)
        returns (out: Outcome)
      requires i < |s.withdrawn| && Progress(Contents(), before) == After(start, done + Withdrawals(s, i))
      modifies this`entries, this`perNode, this`flaps, this`dampedUntil
      ensures Progress(Contents(), out) == After(start, done + Withdrawals(s, i + 1))
    {
      ghost var step := Withdraw(Key(s.withdrawn[i], s.node), s.now);
      assert done + Withdrawals(s, i + 1) == done + Withdrawals(s, i) + [step];
      AfterSnoc(start, done + Withdrawals(s, i), step);
      var v, left := WithdrawOne(Key(s.withdrawn[i], s.node), s.now);
      out := Count(before, v).(changed := before.changed || left);
    }

    method WithdrawAll(s: Sync, before: Outcome, ghost start: State, ghost done: seq<Step>) returns (out: Outcome)
      requires Progress(Contents(), before) == After(start, done)
      modifies this`entries, this`perNode, this`flaps, this`dampedUntil
      ensures Progress(Contents(), out) == After(start, done + Withdrawals(s, |s.withdrawn|))
    {
      out := before;
      assert done + [] == done;
      for i := 0 to |s.withdrawn|
        invariant Progress(Contents(), out) == After(start, done + Withdrawals(s, i))
      {
        out := WithdrawNext(s, i, out, start, done);
      }
    }

    /** A report: the run goes on by its steps, and the version moves exactly when a route entered or left. */
    method ApplySync(s: Sync) returns (out: Outcome)
      requires Valid()
      modifies this
      ensures Valid() && steps == old(steps) + StepsOf(s)
      ensures Progress(Contents(), out) == After(old(Contents()), StepsOf(s))
      ensures version == Bump(old(version), Transitions(old(Contents()), StepsOf(s)))
      ensures entries.Keys != old(entries).Keys && old(version) < U64_MAX ==> version == old(version) + 1
    {
      out := AnnounceAll(s, Outcome(0, 0, 0, 0, false), old(Contents()), []);
      assert [] + Announcements(s, |s.announced|) == Announcements(s, |s.announced|);
      out := WithdrawAll(s, out, old(Contents()), Announcements(s, |s.announced|));
      AfterMeans(old(Contents()), StepsOf(s));
      RunConcat(EMPTY, steps, StepsOf(s));
      steps := steps + StepsOf(s);
      if out.changed && version < U64_MAX { version := version + 1; }
    }

    /** A node leaves: nothing of it stays when anything of it was there. */
    method WithdrawNode(node: u32, ghost now: nat) returns (changed: bool)
      requires Valid()
      modifies this
      ensures Valid() && steps == old(steps) + [NodeGone(node, now)]
      ensures changed <==> Knows(old(Contents()), node)
      ensures !Knows(Contents(), node)
      ensures version == Bump(old(version), changed)
    {
      changed := exists k :: k in entries && k.node == node;
      RunConcat(EMPTY, steps, [NodeGone(node, now)]);
      assert [NodeGone(node, now)][..0] == [];
      steps := steps + [NodeGone(node, now)];
      if changed {
        Sweep(node);
        if version < U64_MAX { version := version + 1; }
      }
    }

    method Sweep(node: u32)
      requires Knows(Contents(), node)
      modifies this`entries, this`perNode, this`flaps, this`dampedUntil
      ensures Contents() == NodeStep(old(Contents()), node) && !Knows(Contents(), node)
    {
      entries := map k | k in entries && k.node != node :: entries[k];
      perNode := perNode - {node};
      flaps := map k | k in flaps && k.node != node :: flaps[k];
      dampedUntil := map k | k in dampedUntil && k.node != node :: dampedUntil[k];
    }
  }
}
