/**
 * One operator over its whole life: ticks that observe etcd as healthy or not, Join and Seed, shutdown,
 * and an error watcher that may clear the running flag at any moment. Whatever the other instances answer,
 * SnapshotInfo is only called while the server is stopped.
 */
module RunningFlag {
  import opened Wrappers
  import opened Statuses
  import opened Operators

  /** Outside of evaluate and execute, between the two, or in the call that the decision leads to. */
  datatype Phase = Idle | Evaluated | Joining | Stopping | Capturing | Publishing | Seeding | Exited

  datatype Life = Life(inst: Instance, phase: Phase, sawRunning: bool)

  /** What the rest of evaluate finds out. */
  datatype Observed = Observed(shutdown: bool, healthy: bool, states: map<PubState, nat>, size: nat, isSeeder: bool)

  datatype Step =
    | ReadFlag                       // evaluate's reading of the running flag
    | Act(seen: Observed)            // execute's decision
    | FinishJoin(joinEnv: JoinEnv)
    | FinishStop
    | Capture(unreadable: bool, cfg: CfgInfo)
    | Publish
    | FinishSeed(seedEnv: SeedEnv)
    | Write(revision: int)
    | Watcher

  predicate Enabled(s: Life, a: Step) {
    match a
    case ReadFlag => s.phase == Idle
    case Act(_) => s.phase == Evaluated
    case FinishJoin(_) => s.phase == Joining
    case FinishStop => s.phase == Stopping
    case Capture(_, _) => s.phase == Capturing
    case Publish => s.phase == Publishing
    case FinishSeed(_) => s.phase == Seeding
    case Write(_) => s.inst.running
    case Watcher => s.inst.running
  }

  function DoAct(s: Life, choice: Action): Life {
    match choice
    case Exit => s.(inst := s.inst.(state := PENDING, running := false), phase := Exited)
    case Join => s.(inst := s.inst.(state := PENDING), phase := Joining)
    case Standby => s.(inst := s.inst.(state := OK), phase := Idle)
    case Confirm => s.(inst := s.inst.(state := PENDING), phase := Idle)
    case StopNow => s.(inst := s.inst.(state := PENDING), phase := Stopping)
    case Prepare => if s.inst.state == START then s.(phase := Idle) else s.(phase := Capturing)
    case SeedNow => s.(inst := s.inst.(state := START), phase := Seeding)
  }

  function DoCapture(s: Life, info: Info): Life {
    match info
    case Found(sn) => s.(inst := s.inst.(snap := Some(sn)), phase := Publishing)
    case NoSnapshot => s.(inst := s.inst.(snap := None), phase := Publishing)
    case Failed => s.(inst := s.inst.(snap := None), phase := Idle)
    case Panicked => s.(phase := Exited)
  }

  function Do(s: Life, a: Step): Life
    requires Enabled(s, a)
  {
    match a
    case ReadFlag => s.(phase := Evaluated, sawRunning := s.inst.running)
    case Act(o) => DoAct(s, Decide(o.shutdown, o.healthy, s.sawRunning, o.states, o.size, o.isSeeder))
    case FinishJoin(env) =>
      var j := JoinResult(s.inst.running, s.inst.disk, env);
      s.(inst := s.inst.(running := j.running, disk := j.disk), phase := Idle)
    case FinishStop => s.(inst := s.inst.(running := false), phase := Idle)
    case Capture(unreadable, cfg) => DoCapture(s, ChooseSnapshot(s.inst.running, s.inst.disk, unreadable, cfg))
    case Publish => s.(inst := s.inst.(state := START), phase := Idle)
    case FinishSeed(env) =>
      var r := SeedResult(s.inst.running, s.inst.disk, s.inst.snap, env);
      s.(inst := s.inst.(running := r.running, disk := r.disk), phase := Idle)
    case Write(revision) => s.(inst := s.inst.(disk := Some(revision)))
    case Watcher => s.(inst := s.inst.(running := false))
  }

  /** `lives` is a run from the start of the process. */
  predicate IsLife(lives: seq<Life>, steps: seq<Step>) {
    && |lives| == |steps| + 1
    && lives[0].inst.state == UNKNOWN && lives[0].inst.snap == None && !lives[0].inst.running && lives[0].phase == Idle
    && forall k | 0 <= k < |steps| :: Linked(lives, steps, k)
  }

  predicate Linked(lives: seq<Life>, steps: seq<Step>, k: nat)
    requires |lives| == |steps| + 1 && k < |steps|
  {
    Enabled(lives[k], steps[k]) && lives[k + 1] == Do(lives[k], steps[k])
  }

  /** Only the operator's own calls set the flag, and it makes them only when it has read it as cleared. */
  predicate FlagInv(s: Life) {
    && (s.phase == Evaluated && !s.sawRunning ==> !s.inst.running)
    && (s.phase in {Joining, Capturing, Publishing, Seeding, Exited} ==> !s.inst.running)
  }

  lemma {:induction false} LifeInv(lives: seq<Life>, steps: seq<Step>, k: nat)
    requires IsLife(lives, steps) && k <= |steps|
    ensures FlagInv(lives[k])
  {
    if k > 0 {
      LifeInv(lives, steps, k - 1);
      assert Linked(lives, steps, k - 1);
    }
  }

  /** In every run of the operator SnapshotInfo is called only with the server stopped, whenever the error
      watcher strikes, so it never dereferences the missing local snapshot. */
  lemma {:induction false} SnapshotInfoOnlyWhenStopped(lives: seq<Life>, steps: seq<Step>, k: nat)
    requires IsLife(lives, steps) && k < |steps| && steps[k].Capture?
    ensures !lives[k].inst.running
    ensures !ChooseSnapshot(lives[k].inst.running, lives[k].inst.disk, steps[k].unreadable, steps[k].cfg).Panicked?
  {
    LifeInv(lives, steps, k);
    assert Linked(lives, steps, k);
  }

  /** A server is only started by an operator that finds it stopped: Seed and Join never meet a running one. */
  lemma {:induction false} StartsOnlyWhenStopped(lives: seq<Life>, steps: seq<Step>, k: nat)
    requires IsLife(lives, steps) && k < |steps| && (steps[k].FinishJoin? || steps[k].FinishSeed?)
    ensures !lives[k].inst.running
  {
    LifeInv(lives, steps, k);
    assert Linked(lives, steps, k);
  }

  /** Without interference the steps of a call of execute amount to what the operator's method computes. */
  lemma {:induction false} CallIsExecute(s: Life, o: Observed, env: Env)
    requires s.phase == Evaluated && FlagInv(s)
    ensures var choice := Decide(o.shutdown, o.healthy, s.sawRunning, o.states, o.size, o.isSeeder);
            var t := Do(s, Act(o));
            && (t.phase == Idle || t.phase == Exited ==> t.inst == After(s.inst, choice, env))
            && (t.phase == Joining ==> Do(t, FinishJoin(env.join)).inst == After(s.inst, choice, env))
            && (t.phase == Stopping ==> Do(t, FinishStop).inst == After(s.inst, choice, env))
            && (t.phase == Seeding ==> Do(t, FinishSeed(env.seed)).inst == After(s.inst, choice, env))
            && (t.phase == Capturing ==>
                  var u := Do(t, Capture(env.unreadable, env.cfg));
                  (if u.phase == Publishing then Do(u, Publish) else u).inst == After(s.inst, choice, env))
  {
    var choice := Decide(o.shutdown, o.healthy, s.sawRunning, o.states, o.size, o.isSeeder);
    assert choice.Prepare? || choice.SeedNow? || choice.Join? ==> !s.inst.running || o.shutdown;
  }
}
