/** Runs of the recovery protocol, built step by step. */
module Traces {
  import opened Wrappers
  import opened Statuses
  import opened Operators
  import opened Recovery
  import opened Durability
  import Liveness

  function Waiting(revision: int): Instance { Instance(false, Some(revision), START, Some(Local(revision))) }

  datatype Trace = Trace(states: seq<System>, acts: seq<Step>)

  ghost predicate Ok(names: seq<string>, r: Trace) { IsRun(names, r.states, r.acts) }

  function Last(r: Trace): System
    requires r.states != []
  {
    r.states[|r.states| - 1]
  }

  /** `q` continues `r`. */
  predicate Continues(q: Trace, r: Trace) { r.states <= q.states && r.acts <= q.acts }

  /** `q` continues `r` by steps of instance `i` only. */
  predicate By(q: Trace, r: Trace, i: nat) {
    Continues(q, r) && forall k | |r.acts| <= k < |q.acts| :: q.acts[k].i == i
  }

  /** The steps between `r` and step `n` of `q` only read statuses. */
  predicate OnlyPolls(q: Trace, r: Trace, n: nat) {
    n <= |q.acts| && forall k | |r.acts| <= k < n :: !q.acts[k].Act? && !q.acts[k].Capture?
  }

  lemma {:induction false} Extend(names: seq<string>, r: Trace, a: Step) returns (q: Trace)
    requires Ok(names, r) && a.i < |names| && CanDo(names, Last(r), a)
    ensures q == Trace(r.states + [Do(names, Last(r), a)], r.acts + [a])
    ensures Ok(names, q) && By(q, r, a.i)
  {
    q := Trace(r.states + [Do(names, Last(r), a)], r.acts + [a]);
    forall k | 0 <= k < |q.acts| ensures Linked(names, q.states, q.acts, k) {
      assert k < |r.acts| ==> Linked(names, r.states, r.acts, k);
    }
  }

  // ---- an undisturbed tick -----------------------------------------------------------------------

  function HalfOf(s: System, m: nat): map<nat, PubState>
    requires m <= |s|
  {
    map j: nat | j < m :: s[j].inst.state
  }

  function ViewOf(s: System, m: nat): map<nat, Seen>
    requires m <= |s|
  {
    map j: nat | j < m :: Seen(s[j].inst.state, Revision(s[j]))
  }

  /** Node `i` after it has read the first `m` instances. */
  function Polled(s: System, i: nat, m: nat, phase: Phase): Node
    requires i < |s| && m <= |s|
  {
    s[i].(phase := phase, sawRunning := s[i].inst.running, half := HalfOf(s, m), view := ViewOf(s, m))
  }

  lemma {:induction false} Poll(names: seq<string>, r: Trace, i: nat, m: nat) returns (q: Trace)
    requires Ok(names, r) && i < |names| && m <= |names| && Last(r)[i].phase == Idle
    ensures Ok(names, q) && By(q, r, i)
    ensures OnlyPolls(q, r, |q.acts|)
    ensures Last(q) == Last(r)[i := Polled(Last(r), i, m, Polling)]
  {
    if m == 0 {
      q := Extend(names, r, Begin(i));
    } else {
      var p := Poll(names, r, i, m - 1);
      q := PollOne(names, p, Last(r), i, m - 1);
    }
  }

  lemma {:induction false} HalfNext(s: System, j: nat)
    requires j < |s|
    ensures HalfOf(s, j)[j := s[j].inst.state] == HalfOf(s, j + 1)
  {
  }

  lemma {:induction false} ViewNext(s: System, j: nat)
    requires j < |s|
    ensures ViewOf(s, j)[j := Seen(s[j].inst.state, Revision(s[j]))] == ViewOf(s, j + 1)
  {
  }

  lemma {:induction false} PollOne(names: seq<string>, p: Trace, s: System, i: nat, j: nat) returns (q: Trace)
    requires Ok(names, p) && |s| == |names| && i < |s| && j < |s|
    requires Last(p) == s[i := Polled(s, i, j, Polling)]
    ensures Ok(names, q) && By(q, p, i)
    ensures OnlyPolls(q, p, |q.acts|)
    ensures Last(q) == s[i := Polled(s, i, j + 1, Polling)]
  {
    assert Last(p)[j].inst == s[j].inst;
    q := Extend(names, p, ReadState(i, j));
    HalfNext(s, j);
    q := Extend(names, q, ReadRevision(i, j));
    ViewNext(s, j);
  }

  function ChoiceAt(names: seq<string>, s: System, i: nat): Action
    requires |s| == |names| && i < |s|
  {
    Decide(false, false, s[i].inst.running, Counts(ViewOf(s, |s|)), |s|, Elected(names, ViewOf(s, |s|), i))
  }

  lemma {:induction false} ActReady(names: seq<string>, p: Trace, s: System, i: nat) returns (q: Trace)
    requires Ok(names, p) && |s| == |names| && i < |s| && Last(p) == s[i := Polled(s, i, |s|, Ready)]
    ensures Ok(names, q) && By(q, p, i) && |q.acts| == |p.acts| + 1 && q.acts[|p.acts|] == Act(i)
    ensures q.states[|p.acts|] == Last(p) && CanDo(names, Last(p), Act(i))
    ensures Choice(names, Last(p), i) == ChoiceAt(names, s, i)
    ensures Last(q) == s[i := DoAct(Polled(s, i, |s|, Ready), ChoiceAt(names, s, i))]
  {
    q := Extend(names, p, Act(i));
  }

  lemma {:induction false} PollAll(names: seq<string>, r: Trace, i: nat) returns (q: Trace)
    requires Ok(names, r) && i < |names| && Last(r)[i].phase == Idle
    ensures Ok(names, q) && By(q, r, i) && OnlyPolls(q, r, |q.acts|)
    ensures Last(q) == Last(r)[i := Polled(Last(r), i, |names|, Ready)]
  {
    var p := Poll(names, r, i, |names|);
    assert 0 in ViewOf(Last(r), |names|);
    q := Extend(names, p, EndPolling(i));
  }

  /** Instance `i` polls everybody and acts, while nobody else moves. */
  lemma {:induction false} Tick(names: seq<string>, r: Trace, i: nat) returns (q: Trace)
    requires Ok(names, r) && i < |names| && Last(r)[i].phase == Idle
    ensures Ok(names, q) && By(q, r, i) && |q.acts| > |r.acts| && q.acts[|q.acts| - 1] == Act(i)
    ensures Choice(names, q.states[|q.acts| - 1], i) == ChoiceAt(names, Last(r), i)
    ensures CanDo(names, q.states[|q.acts| - 1], Act(i))
    ensures OnlyPolls(q, r, |q.acts| - 1)
    ensures Last(q) == Last(r)[i := DoAct(Polled(Last(r), i, |names|, Ready), ChoiceAt(names, Last(r), i))]
  {
    var p := PollAll(names, r, i);
    q := ActReady(names, p, Last(r), i);
  }

  // ---- when another instance seeds ----------------------------------------------------------------

  /** Everybody is stopped, publishes START and is between two ticks. */
  predicate AllWaiting(s: System) {
    forall i | 0 <= i < |s| :: s[i].phase == Idle && s[i].inst.state == START && !s[i].inst.running
  }

  /** With everybody waiting an instance decides to seed iff what it publishes is above all the others. */
  lemma {:induction false} SeedsExactly(names: seq<string>, s: System, y: nat)
    requires |s| == |names| && AllWaiting(s) && y < |s|
    ensures ChoiceAt(names, s, y) == SeedNow <==> Dominates(names, s, y, Revision(s[y]))
  {
    var view := ViewOf(s, |s|);
    Liveness.FullStart(names, view);
    assert forall j | 0 <= j < |s| :: j in view && view[j].revision == Revision(s[j]);
  }

  /** So, once everybody waits, the seeder `x` can be overtaken iff what it publishes is not above all the
      others: then the next tick of some other instance decides to seed. */
  lemma {:induction false} OvertakenExactly(names: seq<string>, s: System, x: nat)
    requires |s| == |names| && UniqueInstances(names) && x < |names| && AllWaiting(s)
    ensures (exists y: nat :: y < |names| && y != x && ChoiceAt(names, s, y) == SeedNow)
            <==> !Dominates(names, s, x, Revision(s[x]))
  {
    var top := Liveness.TopExists(names, s, |s|);
    SeedsExactly(names, s, top);
    if top == x {
      forall y: nat | y < |names| && y != x ensures ChoiceAt(names, s, y) != SeedNow {
        SeedsExactly(names, s, y);
        PrecedesTotal(Revision(s[x]), names[x], Revision(s[y]), names[y]);
      }
    } else {
      PrecedesTotal(Revision(s[x]), names[x], Revision(s[top]), names[top]);
    }
  }

  /** The tick of an instance that is to seed ends with the decision to do so. */
  lemma {:induction false} SeedingTick(names: seq<string>, r: Trace, y: nat) returns (q: Trace)
    requires Ok(names, r) && y < |names| && Last(r)[y].phase == Idle && ChoiceAt(names, Last(r), y) == SeedNow
    ensures Ok(names, q) && By(q, r, y) && |q.acts| > |r.acts| && q.acts[|q.acts| - 1] == Act(y)
    ensures Seeds(names, q.states[|q.acts| - 1], q.acts[|q.acts| - 1])
    ensures OnlyPolls(q, r, |q.acts| - 1)
    ensures Last(q) == Last(r)[y := Polled(Last(r), y, |names|, Seeding).(inst := Last(r)[y].inst.(state := START))]
  {
    q := Tick(names, r, y);
  }

  lemma {:induction false} SamePrefix(p: Trace, q: Trace, k: nat)
    requires Continues(q, p) && |p.states| == |p.acts| + 1 && k < |p.acts|
    ensures q.states[k] == p.states[k] && q.states[k + 1] == p.states[k + 1] && q.acts[k] == p.acts[k]
  {
  }

  // ---- a seeder that starts its cluster ---------------------------------------------------------------

  function AllFine(): SeedEnv { SeedEnv(true, true, true, 0) }

  /** The snapshot is restored, and the server starts. */
  lemma {:induction false} SeedFinish(names: seq<string>, p: Trace, i: nat, me: Instance, c: int) returns (q: Trace)
    requires Ok(names, p) && i < |names| && Last(p)[i].phase == Seeding && Last(p)[i].inst == me
    requires !me.running && me.snap.Some? && SeedContent(me.disk, me.snap.value, AllFine()) == Some(c)
    ensures Ok(names, q) && By(q, p, i) && |q.acts| == |p.acts| + 1
    ensures q.acts[|p.acts|].FinishSeed? && q.states[|p.acts|] == Last(p) && Restores(names, Last(p), q.acts[|p.acts|], c)
    ensures Last(q) == Last(p)[i := Last(p)[i].(inst := me.(running := true, disk := Some(c)), phase := Idle)]
  {
    q := Extend(names, p, FinishSeed(i, AllFine()));
  }
}
