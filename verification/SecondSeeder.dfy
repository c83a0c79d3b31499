/**
 * Why the seeder must not fall behind its own database: a run of one epoch in which two instances seed,
 * because the first one could not read its database when it started over and published an older snapshot.
 */
module SecondSeeder {
  import opened Wrappers
  import opened Statuses
  import opened Operators
  import opened Recovery
  import opened Durability
  import opened Traces

  // ---- the run -------------------------------------------------------------------------------------

  /** Both instances are between two ticks. */
  predicate Both(s: System, a: Instance, b: Instance) {
    |s| == 2 && s[0].inst == a && s[1].inst == b && s[0].phase == Idle && s[1].phase == Idle
  }

  lemma {:induction false} CountStart(s: System, a: Instance, b: Instance)
    requires Both(s, a, b)
    ensures b.state == START ==> |InState(ViewOf(s, 2), START)| == if a.state == START then 2 else 1
    ensures a.state != OK && b.state != OK ==> |InState(ViewOf(s, 2), OK)| == 0
  {
    var view := ViewOf(s, 2);
    if b.state == START {
      assert InState(view, START) == if a.state == START then {0, 1} else {1};
    }
    if a.state != OK && b.state != OK { assert InState(view, OK) == {}; }
  }

  lemma {:induction false} SeedDecision(names: seq<string>, s: System, a: Instance, b: Instance, i: nat)
    requires |names| == 2 && Both(s, a, b) && i < 2
    requires a.state == START && b.state == START && !a.running && !b.running
    requires if i == 0 then Published(b.snap) < Published(a.snap) else Published(a.snap) < Published(b.snap)
    ensures ChoiceAt(names, s, i) == SeedNow
  {
    CountStart(s, a, b);
    assert Elected(names, ViewOf(s, 2), i);
  }

  /** The one with the higher revision decides to seed. */
  lemma {:induction false} SeedAct(names: seq<string>, r: Trace, a: Instance, b: Instance, i: nat) returns (p: Trace)
    requires Ok(names, r) && |names| == 2 && Both(Last(r), a, b) && i < 2
    requires a.state == START && b.state == START && !a.running && !b.running
    requires if i == 0 then Published(b.snap) < Published(a.snap) else Published(a.snap) < Published(b.snap)
    ensures Ok(names, p) && Continues(p, r) && |p.acts| > |r.acts| && p.acts[|p.acts| - 1] == Act(i)
    ensures Seeds(names, p.states[|p.acts| - 1], Act(i)) && OnlyPolls(p, r, |p.acts| - 1)
    ensures |Last(p)| == 2 && Last(p)[i].phase == Seeding && Last(p)[1 - i] == Last(r)[1 - i] && Last(p)[i].inst == Last(r)[i].inst
  {
    SeedDecision(names, Last(r), a, b, i);
    p := Tick(names, r, i);
  }

  /** The one with the higher revision seeds. */
  lemma {:induction false} SeedTick(names: seq<string>, r: Trace, a: Instance, b: Instance, i: nat)
    returns (q: Trace, k: nat)
    requires Ok(names, r) && |names| == 2 && Both(Last(r), a, b) && i < 2
    requires a.state == START && b.state == START && !a.running && !b.running
    requires if i == 0 then Published(b.snap) < Published(a.snap) else Published(a.snap) < Published(b.snap)
    requires var me := if i == 0 then a else b; me.disk.Some? && me.snap == Some(Local(me.disk.value))
    ensures Ok(names, q) && Continues(q, r) && |r.acts| <= k < |q.acts| - 1 && q.acts[k] == Act(i)
    ensures Seeds(names, q.states[k], q.acts[k])
    ensures Restores(names, q.states[k + 1], q.acts[k + 1], if i == 0 then a.disk.value else b.disk.value)
    ensures forall m | |r.acts| <= m < |q.acts| :: !q.acts[m].Capture?
    ensures q.acts[k + 1].i == i && RestoresLabel(q.states[k + 1], q.acts[k + 1])
    ensures if i == 0 then Both(Last(q), a.(running := true), b) else Both(Last(q), a, b.(running := true))
  {
    var p := SeedAct(names, r, a, b, i);
    k := |p.acts| - 1;
    var me := if i == 0 then a else b;
    q := SeedFinish(names, p, i, me, me.disk.value);
    SamePrefix(p, q, k);
  }

  /** Still unhealthy: the new cluster is stopped again. */
  lemma {:induction false} StopTick(names: seq<string>, r: Trace, a: Instance, b: Instance) returns (q: Trace)
    requires Ok(names, r) && |names| == 2 && Both(Last(r), a, b) && a.running && a.state == START && b.state == START
    ensures Ok(names, q) && Continues(q, r) && Both(Last(q), a.(running := false, state := PENDING), b)
  {
    CountStart(Last(r), a, b);
    assert ChoiceAt(names, Last(r), 0) == StopNow;
    var p := Tick(names, r, 0);
    q := Extend(names, p, FinishStop(0));
  }

  /** It captures again, but only the provider's older snapshot can be read. */
  lemma {:induction false} CaptureTick(names: seq<string>, r: Trace, a: Instance, b: Instance, lowest: int)
    returns (q: Trace)
    requires Ok(names, r) && |names| == 2 && Both(Last(r), a, b) && !a.running && a.state == PENDING && b.state == START
    requires a.disk.Some?
    ensures Ok(names, q) && Continues(q, r)
    ensures Both(Last(q), a.(state := START, snap := Some(Provided(lowest, lowest))), b)
  {
    CountStart(Last(r), a, b);
    assert ChoiceAt(names, Last(r), 0) == Prepare;
    var p := Tick(names, r, 0);
    assert Last(p)[0].phase == Capturing && Last(p)[0].inst == a && Last(p)[1] == Last(r)[1];
    q := CaptureOlder(names, p, a, lowest);
  }

  lemma {:induction false} CaptureOlder(names: seq<string>, p: Trace, a: Instance, lowest: int) returns (q: Trace)
    requires Ok(names, p) && |names| == 2 && Last(p)[0].phase == Capturing && Last(p)[0].inst == a && !a.running
    requires a.disk.Some?
    ensures Ok(names, q) && Continues(q, p) && |Last(q)| == 2 && Last(q)[1] == Last(p)[1]
    ensures Last(q)[0].phase == Idle && Last(q)[0].inst == a.(state := START, snap := Some(Provided(lowest, lowest)))
  {
    q := Extend(names, p, Capture(0, true, CfgFound(lowest, lowest)));
    assert Last(q)[0].phase == Publishing;
    q := Extend(names, q, Publish(0));
  }

  /** For all names and revisions: two instances seed in one epoch, and the second cluster starts from a
      lower revision than the first. */
  lemma {:induction false} TwoSeeders(x: string, y: string, high: int, low: int, lowest: int)
    returns (states: seq<System>, acts: seq<Step>, k: nat, l: nat)
    requires x != y && 0 <= lowest < low < high
    ensures IsRun([x, y], states, acts) && k < l < |acts| - 1 && acts[k] == Act(0) && acts[l] == Act(1)
    ensures Seeds([x, y], states[k], acts[k]) && Restores([x, y], states[k + 1], acts[k + 1], high)
    ensures Seeds([x, y], states[l], acts[l]) && Restores([x, y], states[l + 1], acts[l + 1], low)
    ensures !StaysAhead([x, y], states, acts)
  {
    var names, a, b := [x, y], Waiting(high), Waiting(low);
    var start := [Node(a, Idle, false, map[], map[]), Node(b, Idle, false, map[], map[])];
    var r := Trace([start], []);
    var q;
    q, k := SeedTick(names, r, a, b, 0);
    var before := q;
    q := StopTick(names, q, a.(running := true), b);
    q := CaptureTick(names, q, a.(state := PENDING), b, lowest);
    q, l := SeedTick(names, q, a.(snap := Some(Provided(lowest, lowest))), b, 1);
    states, acts := q.states, q.acts;
    if StaysAhead(names, states, acts) { AtMostOneSeeder(names, states, acts, k, l); }
  }
}
