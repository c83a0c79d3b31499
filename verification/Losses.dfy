/**
 * Two runs that lose data: a snapshot file that does not contain what its name says, and a data directory
 * that cannot be read while all the provider has is older.
 */
module Losses {
  import opened Wrappers
  import opened Statuses
  import opened Operators
  import opened Recovery
  import opened Durability
  import opened Traces
  import opened Recapture
  import SecondSeeder

  /** Captures what the provider offers and publishes it. */
  lemma {:induction false} PublishTick(names: seq<string>, r: Trace, x: nat, unreadable: bool, cfg: CfgInfo)
    returns (q: Trace, m: nat)
    requires Ok(names, r) && x < |names| && Last(r)[x].phase == Idle
    requires var n := Last(r)[x].inst;
             && n.state != START && !n.running && n.disk.Some? && cfg.CfgFound?
             && (unreadable || cfg.revision > n.disk.value)
    ensures Ok(names, q) && By(q, r, x) && |q.acts| > |r.acts| && Last(q) == Last(r)[x := Last(q)[x]]
    ensures Last(q)[x].phase == Idle
    ensures Last(q)[x].inst == Last(r)[x].inst.(state := START, snap := Some(Provided(cfg.revision, cfg.content)))
    ensures forall k | |r.acts| <= k < |q.acts| :: !Seeds(names, q.states[k], q.acts[k])
    ensures |r.acts| <= m < |q.acts| && q.acts[m] == Capture(x, unreadable, cfg) && q.states[m][x].inst == Last(r)[x].inst
  {
    var p := PrepareTick(names, r, x);
    m := |p.acts|;
    q := Extend(names, p, Capture(x, unreadable, cfg));
    assert q.states[m] == Last(p);
    assert Last(q)[x].phase == Publishing;
    q := Extend(names, q, Publish(x));
  }

  function Holding(revision: int): Instance { Instance(false, Some(revision), UNKNOWN, None) }

  /** Instance 0 has just been restarted, the others wait; all of them hold revision `high`. */
  function Restarted(n: nat, high: int): (s: System)
    ensures |s| == n
    ensures forall i | 0 <= i < n :: s[i] == Node(if i == 0 then Holding(high) else Waiting(high), Idle, false, map[], map[])
  {
    seq(n, i => Node(if i == 0 then Holding(high) else Waiting(high), Idle, false, map[], map[]))
  }

  lemma {:induction false} RestartedRun(names: seq<string>, high: int) returns (r: Trace)
    requires names != [] && UniqueInstances(names)
    ensures Ok(names, r) && r == Trace([Restarted(|names|, high)], [])
  {
    r := Trace([Restarted(|names|, high)], []);
  }

  lemma {:induction false} FileIsTop(names: seq<string>, s: System, rev: int, content: int)
    requires |s| == |names| > 0 && AllWaiting(s) && s[0].inst.snap == Some(Provided(rev, content))
    requires forall k | 0 < k < |names| :: Revision(s[k]) < rev
    ensures ChoiceAt(names, s, 0) == SeedNow
  {
    SeedsExactly(names, s, 0);
  }

  /** The instance with the highest label decides to seed and starts from what its file contains. */
  lemma {:induction false} SeedFromFile(names: seq<string>, r: Trace, rev: int, content: int) returns (q: Trace)
    requires Ok(names, r) && names != [] && AllWaiting(Last(r)) && Last(r)[0].inst.snap == Some(Provided(rev, content))
    requires forall k | 0 < k < |names| :: Revision(Last(r)[k]) < rev
    ensures Ok(names, q) && By(q, r, 0) && |q.acts| > |r.acts|
    ensures Restores(names, q.states[|q.acts| - 1], q.acts[|q.acts| - 1], content)
    ensures q.states[|q.acts| - 1][0].inst.snap == Some(Provided(rev, content))
  {
    FileIsTop(names, Last(r), rev, content);
    var p := SeedingTick(names, r, 0);
    q := SeedFinish(names, p, 0, Last(p)[0].inst, content);
  }

  /** Every instance but the seeder survives with its data, and nobody fails to read anything; still the new
      cluster starts from a lower revision, because the file it is restored from does not reach its label. */
  lemma {:induction false} UnfinishedSeeds(names: seq<string>, low: int, high: int, rev: int)
    returns (states: seq<System>, acts: seq<Step>)
    requires names != [] && UniqueInstances(names) && low < high < rev
    ensures IsRun(names, states, acts) && acts != []
    ensures forall k | 0 <= k < |names| :: states[0][k].inst.disk == Some(high)
    ensures forall k | 0 < k < |names| :: Survivor(names, states, acts, k, high, 0)
    ensures Restores(names, states[|acts| - 1], acts[|acts| - 1], low)
    ensures !RestoresLabel(states[|acts| - 1], acts[|acts| - 1])
  {
    var r := RestartedRun(names, high);
    var p, m := PublishTick(names, r, 0, false, CfgFound(rev, low));
    var q := SeedFromFile(names, p, rev, low);
    states, acts := q.states, q.acts;
    forall k | 0 < k < |names| ensures Survivor(names, states, acts, k, high, 0) {
      assert forall l | 0 <= l < |acts| :: acts[l].i == 0;
    }
  }

  lemma {:induction false} NobodyWins(names: seq<string>, r: Trace, k: nat)
    requires Ok(names, r) && k <= |r.acts| && forall m | 0 <= m < |r.acts| :: !Seeds(names, r.states[m], r.acts[m])
    ensures Winner(names, r.states, r.acts, k) == None
  {
    if k > 0 { NobodyWins(names, r, k - 1); }
  }

  /** If nobody decides to seed before the last capture, nobody captures again. */
  lemma {:induction false} NobodyRecaptures(names: seq<string>, r: Trace, q: Trace)
    requires Ok(names, r) && Ok(names, q) && Continues(q, r)
    requires forall m | 0 <= m < |r.acts| :: !Seeds(names, r.states[m], r.acts[m])
    requires forall m | |r.acts| <= m < |q.acts| :: !q.acts[m].Capture?
    ensures StaysAhead(names, q.states, q.acts)
  {
    forall k | 0 <= k < |q.acts| ensures AheadAt(names, q.states, q.acts, k) {
      if k < |r.acts| {
        NobodyWins(names, r, k);
        WinnerPrefix(names, r, q, k);
      }
    }
  }

  function OneTry(c: int): seq<Joiner> { [Joiner(1, JoinEnv(true, false, true, false, true, true, c))] }

  /** Instance 1 holds `high`, cannot read it, and publishes the provider's `low`. */
  lemma {:induction false} UnreadableRun(names: seq<string>, low: int, mid: int, high: int) returns (p: Trace, m: nat)
    requires |names| == 2 && names[0] != names[1] && low < high
    ensures Ok(names, p) && m < |p.acts| && p.states[0][1].inst.disk == Some(high)
    ensures forall k | 0 <= k < |p.acts| :: !Seeds(names, p.states[k], p.acts[k])
    ensures p.acts[m].Capture? && p.acts[m].i == 1
    ensures CapturesOlder(p.states[m][1].inst.disk, p.acts[m].unreadable, p.acts[m].cfg)
    ensures SecondSeeder.Both(Last(p), Waiting(mid), Holding(high).(state := START, snap := Some(Provided(low, low))))
  {
    var start := [Node(Waiting(mid), Idle, false, map[], map[]), Node(Holding(high), Idle, false, map[], map[])];
    var r := Trace([start], []);
    p, m := PublishTick(names, r, 1, true, CfgFound(low, low));
  }

  lemma {:induction false} WipedByOneTry(s: System, c: int, high: int)
    requires |s| == 2 && !s[1].inst.running && s[1].inst.disk == Some(high)
    ensures CanJoin(s, OneTry(c)) && Wiped(s, OneTry(c)) == [high]
  {
    var joins := OneTry(c);
    assert joins[1..] == [];
    assert CanJoin(JoinOne(s, joins[0]), []) && Wiped(JoinOne(s, joins[0]), []) == [];
  }

  /** For all names and revisions: instance 1 holds `high` but cannot read it and publishes the provider's
      `low`; instance 0 seeds from its own `mid`, so a revision that both had reached is lost if instance 0
      has lost it; and when instance 1 joins, its data is wiped. */
  lemma {:induction false} UnreadableJoiner(x: string, y: string, low: int, mid: int, high: int)
    returns (states: seq<System>, acts: seq<Step>, m: nat, l: nat)
    requires x != y && low < mid < high
    ensures IsRun([x, y], states, acts) && StaysAhead([x, y], states, acts) && m < l < |acts|
    ensures Restores([x, y], states[l], acts[l], mid) && RestoresLabel(states[l], acts[l]) && acts[l].i == 0
    ensures acts[m].Capture? && acts[m].i == 1 && CapturesOlder(states[m][1].inst.disk, acts[m].unreadable, acts[m].cfg)
    ensures states[0][1].inst.disk == Some(high) && states[|acts|][1].inst.disk == Some(high)
    ensures CanJoin(states[|acts|], OneTry(mid)) && Wiped(states[|acts|], OneTry(mid)) == [high]
  {
    var names := [x, y];
    var p;
    p, m := UnreadableRun(names, low, mid, high);
    var q, k := SecondSeeder.SeedTick(names, p, Waiting(mid), Holding(high).(state := START, snap := Some(Provided(low, low))), 0);
    l := k + 1;
    states, acts := q.states, q.acts;
    SamePrefix(p, q, m);
    NobodyRecaptures(names, p, q);
    WipedByOneTry(Last(q), mid, high);
  }

  /** This run shows why an instance that captures below its data counts as lost: `high` is on a majority,
      only instance 0 has lost it, and instance 1 keeps it on disk to the end; still the cluster starts
      from `mid`, from a snapshot that reaches its label. */
  lemma {:induction false} UnreadableLosesCommitted(x: string, y: string, low: int, mid: int, high: int)
    returns (states: seq<System>, acts: seq<Step>, at: map<nat, nat>, lost: set<nat>, l: nat)
    requires x != y && low < mid < high
    ensures IsRun([x, y], states, acts) && StaysAhead([x, y], states, acts) && l < |acts|
    ensures |at.Keys| >= 2 / 2 + 1 && |lost| < 2 / 2 + 1
    ensures forall k | k in at && k !in lost :: k < 2 && at[k] == 0 && states[0][k].inst.disk == Some(high)
    ensures forall k | k in at && k !in lost :: states[|acts|][k].inst.disk == Some(high)
    ensures Restores([x, y], states[l], acts[l], mid) && RestoresLabel(states[l], acts[l])
  {
    var m;
    states, acts, m, l := UnreadableJoiner(x, y, low, mid, high);
    at, lost := map[0 := 0, 1 := 0], {0};
    assert at.Keys == {0, 1};
  }
}
