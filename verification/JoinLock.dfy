/**
 * The join lock: any number of processes that add themselves to the cluster or remove members from it,
 * with one lock per instance name. A request to remove a member may take effect long after it was sent,
 * an answer may be lost, a process may crash, and the lease behind a lock may expire.
 */
module JoinLock {
  import opened Wrappers
  import Runs

  datatype Job = Join(name: string) | Remove(name: string, id: int)

  /** Where a process is: outside, in Lock, with the lock, starting the server of the member it added,
      in RemoveMember after a failed start, or waiting for the answer to MemberRemove. */
  datatype Pc =
    | Idle
    | Asking(job: Job)
    | Holding(job: Job)
    | Starting(name: string, id: int)
    | RollingBack(name: string, id: int)
    | Removing(name: string, id: int)

  /** `members` maps ids to names, "" before the member has started; `owner` is the name under which an
      id was added; `stray` are ids whose addition went unanswered; `seen` the pairs read from listings;
      `pending` the removals sent. */
  datatype State = State(
    pcs: seq<Pc>, holder: map<string, nat>, members: map<int, string>, owner: map<int, string>, stray: set<int>,
    seen: set<(string, int)>, pending: set<int>)

  datatype Step =
    | AskJoin(p: nat, name: string)
    | List(id: int)
    | AskRemove(p: nat, name: string, id: int)
    | Acquire(p: nat)
    | GiveUp(p: nat)
    | Add(p: nat, id: int)
    | AddFails(p: nat)
    | StrayAdd(id: int)
    | Publish(id: int)
    | Started(p: nat)
    | StartFails(p: nat)
    | RollbackAcquire(p: nat)
    | RollbackTimeout(p: nat)
    | Send(p: nat)
    | Answered(p: nat)
    | Apply(id: int)
    | Expire(p: nat)
    | Crash(p: nat)

  function Release(holder: map<string, nat>, p: nat): map<string, nat> {
    map n | n in holder && holder[n] != p :: holder[n]
  }

  predicate Fresh(s: State, id: int) { id !in s.owner && id !in s.stray }

  predicate Enabled(s: State, step: Step) {
    match step
    case AskJoin(p, _) => p < |s.pcs| && s.pcs[p].Idle?
    case List(id) => id in s.members && s.members[id] != ""
    case AskRemove(p, name, id) => p < |s.pcs| && s.pcs[p].Idle? && (name, id) in s.seen
    case Acquire(p) => p < |s.pcs| && s.pcs[p].Asking? && s.pcs[p].job.name !in s.holder
    case GiveUp(p) => p < |s.pcs| && s.pcs[p].Asking?
    case Add(p, id) => p < |s.pcs| && s.pcs[p].Holding? && s.pcs[p].job.Join? && Fresh(s, id)
    case AddFails(p) => p < |s.pcs| && s.pcs[p].Holding? && s.pcs[p].job.Join?
    case StrayAdd(id) => Fresh(s, id)
    case Publish(id) => id in s.members && id in s.owner
    case Started(p) => p < |s.pcs| && s.pcs[p].Starting?
    case StartFails(p) => p < |s.pcs| && s.pcs[p].Starting?
    case RollbackAcquire(p) => p < |s.pcs| && s.pcs[p].RollingBack? && s.pcs[p].name !in s.holder
    case RollbackTimeout(p) => p < |s.pcs| && s.pcs[p].RollingBack?
    case Send(p) => p < |s.pcs| && s.pcs[p].Holding? && s.pcs[p].job.Remove?
    case Answered(p) => p < |s.pcs| && s.pcs[p].Removing?
    case Apply(id) => id in s.pending
    case Expire(p) => p < |s.pcs|
    case Crash(p) => p < |s.pcs|
  }

  function Do(s: State, step: Step): State
    requires Enabled(s, step)
  {
    match step
    case AskJoin(p, name) => s.(pcs := s.pcs[p := Asking(Join(name))])
    case List(id) => s.(seen := s.seen + {(s.members[id], id)})
    case AskRemove(p, name, id) => s.(pcs := s.pcs[p := Asking(Remove(name, id))])
    case Acquire(p) => s.(pcs := s.pcs[p := Holding(s.pcs[p].job)], holder := s.holder[s.pcs[p].job.name := p])
    case GiveUp(p) => s.(pcs := s.pcs[p := Idle])
    case Add(p, id) =>
      var name := s.pcs[p].job.name;
      s.(pcs := s.pcs[p := Starting(name, id)], members := s.members[id := ""], owner := s.owner[id := name])
    case AddFails(p) => s.(pcs := s.pcs[p := Idle], holder := Release(s.holder, p))
    case StrayAdd(id) => s.(members := s.members[id := ""], stray := s.stray + {id})
    case Publish(id) => s.(members := s.members[id := s.owner[id]])
    case Started(p) => s.(pcs := s.pcs[p := Idle], holder := Release(s.holder, p))
    case StartFails(p) => s.(pcs := s.pcs[p := RollingBack(s.pcs[p].name, s.pcs[p].id)])
    case RollbackAcquire(p) =>
      s.(pcs := s.pcs[p := Holding(Remove(s.pcs[p].name, s.pcs[p].id))], holder := s.holder[s.pcs[p].name := p])
    case RollbackTimeout(p) => s.(pcs := s.pcs[p := Idle], holder := Release(s.holder, p))
    case Send(p) =>
      s.(pcs := s.pcs[p := Removing(s.pcs[p].job.name, s.pcs[p].job.id)], pending := s.pending + {s.pcs[p].job.id})
    case Answered(p) => s.(pcs := s.pcs[p := Idle], holder := Release(s.holder, p))
    case Apply(id) => s.(members := s.members - {id})
    case Expire(p) => s.(holder := Release(s.holder, p))
    case Crash(p) => s.(pcs := s.pcs[p := Idle], holder := Release(s.holder, p))
  }

  /** Nobody is joining or removing yet; the members there are have their names on record. */
  predicate Init(s: State) {
    && (forall p | 0 <= p < |s.pcs| :: s.pcs[p].Idle?)
    && s.holder == map[] && s.seen == {} && s.pending == {}
    && forall id | id in s.members :: NamedByOwner(s, id)
  }

  /** The state after a step, if the step is possible. */
  function Next(s: State, step: Step): Option<State> { if Enabled(s, step) then Some(Do(s, step)) else None }

  function After(s: State, steps: seq<Step>, n: nat): State
    requires n <= |steps|
  {
    Runs.After(Next, s, steps, n)
  }

  predicate IsRun(s: State, steps: seq<Step>) { Init(s) && Runs.AllPossible(Next, s, steps) }

  lemma {:induction false} StepAt(s: State, steps: seq<Step>, n: nat)
    requires IsRun(s, steps) && n < |steps|
    ensures Enabled(After(s, steps, n), steps[n]) && After(s, steps, n + 1) == Do(After(s, steps, n), steps[n])
  {
    Runs.AfterNext(Next, s, steps, n);
  }

  // ---- invariant ---------------------------------------------------------------------------------

  /** A member is known under a name only if it was added under that name. */
  predicate NamedByOwner(s: State, id: int)
    requires id in s.members
  {
    (s.members[id] != "" ==> id in s.owner && s.owner[id] == s.members[id]) && (id in s.owner || id in s.stray)
  }

  predicate OwnedBy(s: State, name: string, id: int) { id in s.owner && s.owner[id] == name }

  /** Whatever a process does with an id, it does under the name of the owner. */
  predicate PcOwned(s: State, pc: Pc) {
    match pc
    case Idle => true
    case Asking(job) => job.Join? || OwnedBy(s, job.name, job.id)
    case Holding(job) => job.Join? || OwnedBy(s, job.name, job.id)
    case Starting(name, id) => OwnedBy(s, name, id)
    case RollingBack(name, id) => OwnedBy(s, name, id)
    case Removing(name, id) => OwnedBy(s, name, id)
  }

  /** The process has added `id`, has not unlocked, and still has the lock. */
  predicate Protects(s: State, p: nat, id: int) {
    && p < |s.pcs| && (s.pcs[p].Starting? || s.pcs[p].RollingBack?) && s.pcs[p].id == id
    && s.pcs[p].name in s.holder && s.holder[s.pcs[p].name] == p
  }

  /** The process has acquired a lock in order to remove `id`. */
  predicate Removes(s: State, q: nat, id: int) {
    && q < |s.pcs|
    && ((s.pcs[q].Holding? && s.pcs[q].job.Remove? && s.pcs[q].job.id == id) || (s.pcs[q].Removing? && s.pcs[q].id == id))
  }

  ghost predicate Known(s: State) {
    && (forall id | id in s.members :: NamedByOwner(s, id))
    && (forall name, id | (name, id) in s.seen :: OwnedBy(s, name, id))
    && (forall p | 0 <= p < |s.pcs| :: PcOwned(s, s.pcs[p]))
    && (forall id | id in s.pending :: id in s.owner)
  }

  ghost predicate Inv(s: State) {
    && Known(s)
    && (forall p: nat, id | Protects(s, p, id) :: id in s.members && id !in s.pending)
    && (forall p: nat, q: nat, id | Protects(s, p, id) :: !Removes(s, q, id))
  }

  lemma {:induction false} StepKnown(s: State, step: Step)
    requires Known(s) && Enabled(s, step)
    ensures Known(Do(s, step))
  {
    var t := Do(s, step);
    forall name, id | OwnedBy(s, name, id) ensures OwnedBy(t, name, id) {}
    forall p | 0 <= p < |t.pcs| ensures PcOwned(t, t.pcs[p]) {
      assert PcOwned(s, s.pcs[p]);
    }
    forall id | id in t.members ensures NamedByOwner(t, id) {
      assert id in s.members ==> NamedByOwner(s, id);
    }
  }

  /** Who protects an id afterwards protected it before, or has just added it. */
  lemma {:induction false} StepProtects(s: State, step: Step, p: nat, id: int)
    requires Known(s) && Enabled(s, step) && Protects(Do(s, step), p, id)
    ensures Protects(s, p, id) || step == Add(p, id)
  {
  }

  /** Who removes an id afterwards did so before, or has just got the lock of its owner. */
  lemma {:induction false} StepRemoves(s: State, step: Step, q: nat, id: int)
    requires Known(s) && Enabled(s, step) && Removes(Do(s, step), q, id)
    ensures Removes(s, q, id) || (id in s.owner && s.owner[id] !in s.holder && (step == Acquire(q) || step == RollbackAcquire(q)))
  {
    assert PcOwned(s, s.pcs[q]);
  }

  lemma {:induction false} StepInv(s: State, step: Step)
    requires Inv(s) && Enabled(s, step)
    ensures Inv(Do(s, step))
  {
    var t := Do(s, step);
    StepKnown(s, step);
    forall p: nat, id | Protects(t, p, id) ensures id in t.members && id !in t.pending {
      StepProtects(s, step, p, id);
      if id in t.pending && id !in s.pending { SenderRemoves(s, step, id); }
    }
    forall p: nat, q: nat, id | Protects(t, p, id) ensures !Removes(t, q, id) {
      StepProtects(s, step, p, id);
      if Removes(t, q, id) {
        StepRemoves(s, step, q, id);
      }
    }
  }

  /** A removal is sent by a process that has acquired the lock. */
  lemma {:induction false} SenderRemoves(s: State, step: Step, id: int)
    requires Enabled(s, step) && id in Do(s, step).pending && id !in s.pending
    ensures step.Send? && Removes(s, step.p, id)
  {
  }

  lemma {:induction false} RunInv(s: State, steps: seq<Step>, n: nat)
    requires IsRun(s, steps) && n <= |steps|
    ensures Inv(After(s, steps, n))
  {
    if n > 0 {
      RunInv(s, steps, n - 1);
      StepAt(s, steps, n - 1);
      StepInv(After(s, steps, n - 1), steps[n - 1]);
    }
  }

  // ---- main results ------------------------------------------------------------------------------

  /** The steps by which a process gives up its lock: its own unlock, a crash, or the end of its lease. */
  predicate Releases(step: Step, p: nat) {
    step == Started(p) || step == RollbackTimeout(p) || step == Expire(p) || step == Crash(p)
  }

  lemma {:induction false} StillProtects(s: State, step: Step, p: nat, id: int)
    requires Enabled(s, step) && Protects(s, p, id) && !Releases(step, p)
    ensures Protects(Do(s, step), p, id)
  {
  }

  /** The process is about to add a member and has the lock. */
  predicate MayAdd(s: State, p: nat) {
    p < |s.pcs| && s.pcs[p].Holding? && s.pcs[p].job.name in s.holder && s.holder[s.pcs[p].job.name] == p
  }

  lemma {:induction false} AddProtects(s: State, p: nat, id: int)
    requires Enabled(s, Add(p, id)) && MayAdd(s, p)
    ensures Protects(Do(s, Add(p, id)), p, id)
  {
  }

  lemma {:induction false} ProtectsNext(s: State, steps: seq<Step>, n: nat, p: nat, id: int)
    requires IsRun(s, steps) && n < |steps| && !Releases(steps[n], p)
    requires Protects(After(s, steps, n), p, id) || (steps[n] == Add(p, id) && MayAdd(After(s, steps, n), p))
    ensures Protects(After(s, steps, n + 1), p, id)
  {
    var t := After(s, steps, n);
    StepAt(s, steps, n);
    if Protects(t, p, id) {
      StillProtects(t, steps[n], p, id);
    } else {
      AddProtects(t, p, id);
    }
  }

  lemma {:induction false} KeepsProtecting(s: State, steps: seq<Step>, i: nat, j: nat, p: nat, id: int)
    requires IsRun(s, steps) && i < j <= |steps| && steps[i] == Add(p, id) && MayAdd(After(s, steps, i), p)
    requires forall k | i < k < j :: !Releases(steps[k], p)
    ensures Protects(After(s, steps, j), p, id)
    decreases j
  {
    if j > i + 1 { KeepsProtecting(s, steps, i, j - 1, p, id); }
    ProtectsNext(s, steps, j - 1, p, id);
  }

  /** In every interleaving a member stays in the cluster from its addition until the process that added
      it gives up the lock. */
  lemma {:induction false} AddedStays(s: State, steps: seq<Step>, i: nat, j: nat, p: nat, id: int)
    requires IsRun(s, steps) && i < j <= |steps| && steps[i] == Add(p, id) && MayAdd(After(s, steps, i), p)
    requires forall k | i < k < j :: !Releases(steps[k], p)
    ensures id in After(s, steps, j).members
  {
    KeepsProtecting(s, steps, i, j, p, id);
    RunInv(s, steps, j);
  }

  /** The clean-up after a failed start waits for a lock that its own process holds, so it gives up and
      the member stays listed: a failed join is not rolled back. */
  lemma {:induction false} FailedJoinStays(s: State, steps: seq<Step>, i: nat, j: nat, p: nat, id: int)
    requires IsRun(s, steps) && i < j < |steps| && steps[i] == Add(p, id) && MayAdd(After(s, steps, i), p)
    requires forall k | i < k < j :: !Releases(steps[k], p)
    ensures steps[j] != RollbackAcquire(p)
    ensures steps[j] == RollbackTimeout(p) ==> id in After(s, steps, j + 1).members
  {
    KeepsProtecting(s, steps, i, j, p, id);
    AddedStays(s, steps, i, j, p, id);
    StepAt(s, steps, j);
  }

  /** A process that is done with its lock, or has lost it, protects nothing. */
  lemma {:induction false} ReleaseEnds(s: State, step: Step, p: nat, id: int)
    requires Enabled(s, step) && Releases(step, p)
    ensures !Protects(Do(s, step), p, id)
  {
  }

  /** An id is never added twice. */
  lemma {:induction false} AddedOnce(s: State, steps: seq<Step>, i: nat, j: nat, p: nat, id: int)
    requires IsRun(s, steps) && i < j <= |steps| && steps[i] == Add(p, id)
    ensures id in After(s, steps, j).owner
    decreases j
  {
    if j > i + 1 { AddedOnce(s, steps, i, j - 1, p, id); }
    StepAt(s, steps, j - 1);
  }

  lemma {:induction false} NotAgain(s: State, step: Step, p: nat, id: int)
    requires Known(s) && Enabled(s, step) && id in s.owner && !Protects(s, p, id)
    ensures !Protects(Do(s, step), p, id)
  {
    if Protects(Do(s, step), p, id) { StepProtects(s, step, p, id); }
  }

  lemma {:induction false} NotAgainAt(s: State, steps: seq<Step>, i: nat, j: nat, p: nat, id: int)
    requires IsRun(s, steps) && i < j < |steps| && steps[i] == Add(p, id) && !Protects(After(s, steps, j), p, id)
    ensures !Protects(After(s, steps, j + 1), p, id)
  {
    RunInv(s, steps, j);
    StepAt(s, steps, j);
    AddedOnce(s, steps, i, j, p, id);
    NotAgain(After(s, steps, j), steps[j], p, id);
  }

  lemma {:induction false} ReleasedAt(s: State, steps: seq<Step>, k: nat, p: nat, id: int)
    requires IsRun(s, steps) && k < |steps| && Releases(steps[k], p)
    ensures !Protects(After(s, steps, k + 1), p, id)
  {
    StepAt(s, steps, k);
    ReleaseEnds(After(s, steps, k), steps[k], p, id);
  }

  lemma {:induction false} ReleasedStays(s: State, steps: seq<Step>, i: nat, k: nat, j: nat, p: nat, id: int)
    requires IsRun(s, steps) && i < k < j <= |steps| && steps[i] == Add(p, id) && Releases(steps[k], p)
    ensures !Protects(After(s, steps, j), p, id)
    decreases j
  {
    if j == k + 1 {
      ReleasedAt(s, steps, k, p, id);
    } else {
      ReleasedStays(s, steps, i, k, j - 1, p, id);
      NotAgainAt(s, steps, i, j - 1, p, id);
    }
  }

  /** The protection of an added member ends exactly when its process gives up the lock. */
  lemma {:induction false} ProtectedExactly(s: State, steps: seq<Step>, i: nat, j: nat, p: nat, id: int)
    requires IsRun(s, steps) && i < j <= |steps| && steps[i] == Add(p, id) && MayAdd(After(s, steps, i), p)
    ensures Protects(After(s, steps, j), p, id) <==> forall k | i < k < j :: !Releases(steps[k], p)
  {
    if forall k | i < k < j :: !Releases(steps[k], p) {
      KeepsProtecting(s, steps, i, j, p, id);
    } else {
      var k :| i < k < j && Releases(steps[k], p);
      ReleasedStays(s, steps, i, k, j, p, id);
    }
  }

  // ---- the calls, as they are made -------------------------------------------------------------------

  /** The steps lead from `s` to `t`. */
  predicate Follows(s: State, steps: seq<Step>, t: State)
    decreases |steps|
  {
    if steps == [] then s == t else Enabled(s, steps[0]) && Follows(Do(s, steps[0]), steps[1..], t)
  }

  lemma {:induction false} FollowsOne(s: State, steps: seq<Step>, t: State, step: Step)
    requires Follows(s, steps, t) && Enabled(t, step)
    ensures Follows(s, steps + [step], Do(t, step))
    decreases |steps|
  {
    if steps == [] {
      assert [step][1..] == [];
      assert Follows(Do(t, step), [], Do(t, step));
    } else {
      assert (steps + [step])[1..] == steps[1..] + [step];
      FollowsOne(Do(s, steps[0]), steps[1..], t, step);
    }
  }

  /** Unlocking undoes locking. */
  lemma {:induction false} Unlocked(holder: map<string, nat>, name: string, p: nat)
    requires name !in holder && forall n | n in holder :: holder[n] != p
    ensures Release(holder[name := p], p) == holder
  {
  }

  /** etcd's answer to a removal, or no answer, whether or not the removal takes effect. */
  datatype Reply = Answer | Lost(applied: bool)

  /** One process, and the calls it makes while nobody else moves. `steps` are the steps of the protocol
      it has taken since `start`. */
  class Client {
    const p: nat
    var world: State
    ghost const start: State
    ghost var steps: seq<Step>

    constructor (p: nat, world: State)
      ensures this.p == p && this.world == world && Valid() && start == world && steps == []
    {
      this.p, this.world, this.start, this.steps := p, world, world, [];
    }

    ghost predicate Valid()
      reads this
    {
      Follows(start, steps, world)
    }

    /** The process is outside of any call and has no lock. */
    predicate Ready()
      reads this
    {
      p < |world.pcs| && world.pcs[p].Idle? && forall n | n in world.holder :: world.holder[n] != p
    }

    method Take(step: Step)
      requires Valid() && Enabled(world, step)
      modifies this
      ensures Valid() && world == Do(old(world), step) && steps == old(steps) + [step]
    {
      FollowsOne(start, steps, world, step);
      world, steps := Do(world, step), steps + [step];
    }

    /** Lock, then MemberAdd; the lock is kept only if a member was added. */
    method AddMember(name: string, reply: Option<int>) returns (id: Option<int>)
      requires Valid() && Ready() && (reply.Some? ==> Fresh(world, reply.value))
      modifies this
      ensures Valid() && old(steps) <= steps
      ensures id == if name in old(world).holder then None else reply
      ensures id.None? ==> world == old(world)
      ensures id.Some? ==>
                && world.pcs == old(world).pcs[p := Starting(name, id.value)] && world.holder == old(world).holder[name := p]
                && world.members == old(world).members[id.value := ""] && world.owner == old(world).owner[id.value := name]
                && world.seen == old(world).seen && world.pending == old(world).pending && world.stray == old(world).stray
    {
      ghost var was := world;
      Take(AskJoin(p, name));
      if name in world.holder {
        Take(GiveUp(p));
        assert world == was;
        return None;
      }
      Take(Acquire(p));
      if reply.None? {
        Take(AddFails(p));
        Unlocked(was.holder, name, p);
        assert world.pcs == was.pcs;
        return None;
      }
      Take(Add(p, reply.value));
      id := reply;
    }

    /** Lock, MemberRemove, unlock. No error means that the id is not a member, also when it was not before. */
    method RemoveMember(name: string, id: int, reply: Reply) returns (ok: bool)
      requires Valid() && Ready() && (name, id) in world.seen
      modifies this
      ensures Valid() && Ready() && old(steps) <= steps
      ensures ok <==> name !in old(world).holder && reply == Answer
      ensures ok ==> id !in world.members
      ensures world.members == if name in old(world).holder || reply == Lost(false) then old(world).members else old(world).members - {id}
      ensures world.holder == old(world).holder && world.pcs == old(world).pcs
    {
      ghost var was := world;
      Take(AskRemove(p, name, id));
      if name in world.holder {
        Take(GiveUp(p));
        return false;
      }
      Take(Acquire(p));
      Request(id, reply);
      Unlocked(was.holder, name, p);
      assert world.pcs == was.pcs;
      ok := reply == Answer;
    }

    method Request(id: int, reply: Reply)
      requires Valid() && p < |world.pcs| && world.pcs[p].Holding? && world.pcs[p].job.Remove?
      requires world.pcs[p].job.id == id
      modifies this
      ensures Valid() && old(steps) <= steps
      ensures world.pcs == old(world).pcs[p := Idle] && world.holder == Release(old(world).holder, p)
      ensures world.members == if reply == Lost(false) then old(world).members else old(world).members - {id}
    {
      Take(Send(p));
      if reply == Answer || reply.applied { Take(Apply(id)); }
      Take(Answered(p));
    }

    /** The end of Join: add ourselves, start, and on failure try to remove ourselves again. The attempt
        cannot get the lock, so the new member stays whether or not its server has started. */
    method JoinAsNew(name: string, reply: Option<int>, startOk: bool) returns (ok: bool)
      requires Valid() && Ready() && (reply.Some? ==> Fresh(world, reply.value))
      modifies this
      ensures Valid() && Ready() && old(steps) <= steps
      ensures ok <==> name !in old(world).holder && reply.Some? && startOk
      ensures world.members == if name in old(world).holder || reply.None? then old(world).members
                               else old(world).members[reply.value := if startOk then name else ""]
      ensures world.holder == old(world).holder && world.pcs == old(world).pcs
    {
      ghost var was := world;
      var id := AddMember(name, reply);
      if id.None? { return false; }
      if startOk {
        Take(Publish(id.value));
        Take(Started(p));
      } else {
        Take(StartFails(p));
        assert name in world.holder;
        Take(RollbackTimeout(p));
      }
      Unlocked(was.holder, name, p);
      assert world.pcs == was.pcs;
      ok := startOk;
    }
  }
}
