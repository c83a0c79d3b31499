/**
 * After the recovery: the operators observe the cluster as healthy and lead their instances back, each at
 * its own pace. Two ticks are enough for every one of them.
 */
module Healing {
  import opened Wrappers
  import opened Statuses
  import opened Operators
  import opened RunningFlag
  import Recovery
  import Runs

  /** Step `step` of the operator of instance `i`. */
  datatype Move = Move(i: nat, step: RunningFlag.Step)

  type Group = seq<Life>

  /** Nothing goes wrong: the cluster is seen as healthy, nobody shuts down, and the calls of Join succeed. */
  predicate Calm(s: Life, a: RunningFlag.Step) {
    match a
    case Act(seen) => seen.healthy && !seen.shutdown
    case FinishJoin(env) => Joins(s.inst.disk, env)
    case Watcher => false
    case _ => true
  }

  function Next(s: Group, m: Move): Option<Group> {
    if m.i < |s| && Enabled(s[m.i], m.step) && Calm(s[m.i], m.step) then Some(s[m.i := Do(s[m.i], m.step)]) else None
  }

  predicate IsRun(s: Group, moves: seq<Move>) { Runs.AllPossible(Next, s, moves) }

  function After(s: Group, moves: seq<Move>, n: nat): Group
    requires n <= |moves|
  {
    Runs.After(Next, s, moves, n)
  }

  /** How many ticks the operator of `i` has begun. */
  function Begun(moves: seq<Move>, i: nat, n: nat): nat
    requires n <= |moves|
  {
    if n == 0 then 0 else Begun(moves, i, n - 1) + if moves[n - 1] == Move(i, ReadFlag) then 1 else 0
  }

  /** An operator at any place of its loop that has not exited. */
  predicate Alive(s: Life) { FlagInv(s) && s.phase != Exited && (s.inst.running ==> s.inst.disk.Some?) }

  /** What `ticks` ticks have achieved. */
  predicate Progress(s: Life, ticks: nat) {
    && Alive(s)
    && (ticks >= 1 ==>
          && s.phase in {Idle, Evaluated, Joining}
          && (s.phase == Evaluated ==> s.inst.running == s.sawRunning)
          && (s.phase == Idle ==> s.inst.running))
    && (ticks >= 2 ==> s.phase != Joining && s.inst.running && (s.phase == Idle ==> s.inst.state == OK))
  }

  lemma {:induction false} ProgressStep(s: Life, a: RunningFlag.Step, ticks: nat)
    requires Progress(s, ticks) && Enabled(s, a) && Calm(s, a)
    ensures Progress(Do(s, a), if a == ReadFlag then ticks + 1 else ticks)
  {
  }

  lemma {:induction false} RunProgress(s: Group, moves: seq<Move>, i: nat, n: nat)
    requires IsRun(s, moves) && n <= |moves| && i < |s| && Alive(s[i])
    ensures |After(s, moves, n)| == |s| && Progress(After(s, moves, n)[i], Begun(moves, i, n))
  {
    if n > 0 {
      RunProgress(s, moves, i, n - 1);
      Runs.AfterNext(Next, s, moves, n - 1);
      var t, m := After(s, moves, n - 1), moves[n - 1];
      if m.i == i { ProgressStep(t[i], m.step, Begun(moves, i, n - 1)); }
    }
  }

  /** Wherever the operators are when nothing goes wrong any more, and however their steps interleave: an
      instance whose operator has made one whole tick runs, and after two it also publishes OK. */
  lemma {:induction false} TwoTicks(s: Group, moves: seq<Move>, i: nat)
    requires IsRun(s, moves) && i < |s| && Alive(s[i])
    ensures |After(s, moves, |moves|)| == |s|
    ensures var t := After(s, moves, |moves|)[i];
            && (t.phase == Idle && Begun(moves, i, |moves|) >= 1 ==> t.inst.running && t.inst.disk.Some?)
            && (t.phase == Idle && Begun(moves, i, |moves|) >= 2 ==> t.inst.state == OK)
  {
    RunProgress(s, moves, i, |moves|);
  }

  // ---- after an epoch of recovery -------------------------------------------------------------

  /** Where an operator of the recovery protocol is in its loop. */
  function LifeOf(n: Recovery.Node): Life {
    var phase := match n.phase
      case Idle => RunningFlag.Idle
      case Polling => Evaluated
      case Ready => Evaluated
      case Stopping => RunningFlag.Stopping
      case Capturing => RunningFlag.Capturing
      case Publishing => RunningFlag.Publishing
      case Seeding => RunningFlag.Seeding;
    Life(n.inst, phase, n.sawRunning)
  }

  function GroupOf(s: Recovery.System): (g: Group)
    ensures |g| == |s| && forall i | 0 <= i < |s| :: g[i] == LifeOf(s[i])
  {
    seq(|s|, i requires 0 <= i < |s| => LifeOf(s[i]))
  }

  /** Every epoch can be left: from wherever it ends, in the middle of ticks or calls of Seed, two ticks of
      each operator that see a healthy cluster and are not disturbed bring everybody back. */
  lemma {:induction false} EverybodyReturns(names: seq<string>, states: seq<Recovery.System>, acts: seq<Recovery.Step>,
                                            moves: seq<Move>)
    requires Recovery.IsRun(names, states, acts) && IsRun(GroupOf(states[|acts|]), moves)
    ensures |After(GroupOf(states[|acts|]), moves, |moves|)| == |names|
    ensures var t := After(GroupOf(states[|acts|]), moves, |moves|);
            (forall i | 0 <= i < |names| :: t[i].phase == Idle && Begun(moves, i, |moves|) >= 2) ==>
              forall i | 0 <= i < |names| :: t[i].inst.running && t[i].inst.disk.Some? && t[i].inst.state == OK
  {
    var s := states[|acts|];
    Recovery.RunNodes(names, states, acts, |acts|);
    assert Recovery.WellFormed(names, s) && Recovery.NodeInv(0, s[0]);
    forall i: nat | i < |names|
      ensures |After(GroupOf(s), moves, |moves|)| == |names|
      ensures Progress(After(GroupOf(s), moves, |moves|)[i], Begun(moves, i, |moves|))
    {
      assert Recovery.NodeInv(i, s[i]);
      RunProgress(GroupOf(s), moves, i, |moves|);
    }
    RunProgress(GroupOf(s), moves, 0, |moves|);
  }
}
