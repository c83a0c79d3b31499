/**
 * When the seeder starts over: the revision it captures again decides, exactly, whether some other
 * instance can take its place.
 */
module Recapture {
  import opened Wrappers
  import opened Statuses
  import opened Operators
  import opened Recovery
  import opened Traces

  /** `q` ends with a decision to seed by an instance other than `x`. */
  ghost predicate EndsWithOther(names: seq<string>, q: Trace, x: nat) {
    && Ok(names, q) && q.acts != []
    && Seeds(names, q.states[|q.acts| - 1], q.acts[|q.acts| - 1]) && q.acts[|q.acts| - 1].i != x
  }

  predicate NoCapture(q: Trace, n: nat, x: nat) {
    forall k | n <= k < |q.acts| :: !(q.acts[k].Capture? && q.acts[k].i == x)
  }

  /** `q` continues `r` to a decision by another instance, without another capture by `x`. */
  ghost predicate Takeover(names: seq<string>, r: Trace, x: nat, q: Trace) {
    EndsWithOther(names, q, x) && Continues(q, r) && |q.acts| > |r.acts| && NoCapture(q, |r.acts|, x)
  }

  // ---- the others come to rest ----------------------------------------------------------------------

  /** A frozen instance that is not about to seed. */
  predicate Resting(n: Node) { Frozen(n) && n.phase in {Idle, Polling, Ready} }

  predicate OthersRest(s: System, x: nat) { forall j | 0 <= j < |s| && j != x :: Resting(s[j]) }

  /** Ends the polling of `y`, after it has read at least itself. */
  lemma {:induction false} FinishPolling(names: seq<string>, r: Trace, y: nat) returns (q: Trace)
    requires Ok(names, r) && y < |names| && Last(r)[y].phase in {Polling, Ready} && Resting(Last(r)[y])
    ensures Ok(names, q) && By(q, r, y)
    ensures Last(q) == Last(r)[y := Last(q)[y]] && Last(q)[y].phase == Ready
    ensures Last(q)[y].inst == Last(r)[y].inst && !Last(q)[y].sawRunning
  {
    q := r;
    if Last(r)[y].phase == Polling {
      if Last(r)[y].view == map[] { q := ReadItself(names, q, y); }
      q := Extend(names, q, EndPolling(y));
    }
  }

  lemma {:induction false} ReadItself(names: seq<string>, r: Trace, y: nat) returns (q: Trace)
    requires Ok(names, r) && y < |names| && Last(r)[y].phase == Polling && Last(r)[y].view == map[]
    ensures Ok(names, q) && By(q, r, y)
    ensures Last(q) == Last(r)[y := Last(q)[y]] && Last(q)[y].phase == Polling && Last(q)[y].view != map[]
    ensures Last(q)[y].inst == Last(r)[y].inst && Last(q)[y].sawRunning == Last(r)[y].sawRunning
  {
    q := r;
    if y !in Last(r)[y].half { q := Extend(names, q, ReadState(y, y)); }
    q := Extend(names, q, ReadRevision(y, y));
    assert y in Last(q)[y].view;
  }

  /** A resting instance ends its tick, unless it decides to seed. */
  lemma {:induction false} Drain(names: seq<string>, r: Trace, x: nat, y: nat) returns (q: Trace, seeds: bool)
    requires Ok(names, r) && y < |names| && y != x && Resting(Last(r)[y])
    ensures seeds ==> Takeover(names, r, x, q)
    ensures !seeds ==> Ok(names, q) && By(q, r, y) && Last(q) == Last(r)[y := Last(q)[y]]
    ensures !seeds ==> Last(q)[y].inst == Last(r)[y].inst && Last(q)[y].phase == Idle
  {
    if Last(r)[y].phase == Idle {
      q, seeds := r, false;
    } else {
      var p := FinishPolling(names, r, y);
      q := Extend(names, p, Act(y));
      seeds := Seeds(names, Last(p), Act(y));
      assert q.states[|q.acts| - 1] == Last(p);
      assert Last(q)[y] == DoAct(Last(p)[y], Choice(names, Last(p), y));
    }
  }

  /** Everybody below `m` but `x` has ended its tick. */
  predicate Rested(s: System, t: System, x: nat, m: nat) {
    && |s| == |t| && m <= |s| && x < |s| && t[x] == s[x]
    && (forall j | 0 <= j < |s| :: t[j].inst == s[j].inst)
    && (forall j | 0 <= j < |s| && j != x :: Resting(t[j]))
    && (forall j | 0 <= j < m && j != x :: t[j].phase == Idle)
  }

  lemma {:induction false} TakeoverLater(names: seq<string>, r: Trace, p: Trace, x: nat, q: Trace)
    requires Continues(p, r) && NoCapture(p, |r.acts|, x) && Takeover(names, p, x, q)
    ensures Takeover(names, r, x, q)
  {
  }

  lemma {:induction false} DrainAll(names: seq<string>, r: Trace, x: nat, m: nat) returns (q: Trace, seeds: bool)
    requires Ok(names, r) && x < |names| && m <= |names| && OthersRest(Last(r), x)
    ensures seeds ==> Takeover(names, r, x, q)
    ensures !seeds ==> Ok(names, q) && Continues(q, r) && NoCapture(q, |r.acts|, x)
    ensures !seeds ==> Rested(Last(r), Last(q), x, m)
  {
    if m == 0 {
      q, seeds := r, false;
    } else {
      var p;
      p, seeds := DrainAll(names, r, x, m - 1);
      if seeds || m - 1 == x { return p, seeds; }
      q, seeds := Drain(names, p, x, m - 1);
      if seeds { TakeoverLater(names, r, p, x, q); }
    }
  }

  // ---- falling behind ------------------------------------------------------------------------------------

  lemma {:induction false} Overtake(names: seq<string>, r: Trace, x: nat) returns (q: Trace)
    requires Ok(names, r) && UniqueInstances(names) && x < |names| && AllWaiting(Last(r))
    requires !Dominates(names, Last(r), x, Revision(Last(r)[x]))
    ensures Takeover(names, r, x, q)
  {
    OvertakenExactly(names, Last(r), x);
    var y: nat :| y < |names| && y != x && ChoiceAt(names, Last(r), y) == SeedNow;
    q := SeedingTick(names, r, y);
  }

  /** The seeder is about to publish a revision that is not above all the others: once the others have
      ended their ticks and the revision is published, one of them decides to seed. */
  lemma {:induction false} PublishedBehind(names: seq<string>, r: Trace, x: nat) returns (q: Trace)
    requires Ok(names, r) && UniqueInstances(names) && x < |names| && OthersRest(Last(r), x)
    requires Last(r)[x].phase == Publishing && !Last(r)[x].inst.running
    requires !Dominates(names, Last(r), x, Revision(Last(r)[x]))
    ensures Takeover(names, r, x, q)
  {
    var p, seeds := DrainAll(names, r, x, |names|);
    if seeds { return p; }
    var u := Extend(names, p, Publish(x));
    BehindFramed(names, Last(r), Last(u), x);
    q := Overtake(names, u, x);
    TakeoverLater(names, r, u, x, q);
  }

  lemma {:induction false} BehindFramed(names: seq<string>, s: System, t: System, x: nat)
    requires |s| == |t| == |names| && x < |s| && !Dominates(names, s, x, Revision(s[x]))
    requires forall j | 0 <= j < |s| :: Revision(t[j]) == Revision(s[j])
    ensures !Dominates(names, t, x, Revision(t[x]))
  {
  }

  /** The run `r` ends with a capture by its seeder, which had stayed ahead so far. */
  ghost predicate EndsWithRecapture(names: seq<string>, r: Trace, x: nat) {
    && Ok(names, r) && r.acts != [] && r.acts[|r.acts| - 1].i == x
    && AheadUntil(names, r.states, r.acts, |r.acts| - 1) && Recaptures(names, r.states, r.acts, |r.acts| - 1)
  }

  lemma {:induction false} RecaptureStep(names: seq<string>, s: System, a: Step, x: nat)
    requires Inv(names, s, Some(x)) && CanDo(names, s, a) && a.Capture? && a.i == x
    ensures OthersRest(Do(names, s, a), x)
    ensures var n := Do(names, s, a)[x];
            && n.phase in {Publishing, Idle} && !n.inst.running && n.inst.state != START
            && (n.phase == Idle ==> n.inst.snap == None)
    ensures RecaptureAhead(names, s, a) <==> Dominates(names, Do(names, s, a), x, Revision(Do(names, s, a)[x]))
  {
    var t := Do(names, s, a);
    assert t[x] == DoCapture(s[x], a.unreadable, a.cfg);
    forall j | 0 <= j < |s| && j != x ensures Resting(t[j]) { assert Frozen(s[j]) && NodeInv(j, s[j]); }
    DominatesSame(names, s, t, x, Revision(t[x]));
  }

  lemma {:induction false} AtRecapture(names: seq<string>, r: Trace, x: nat)
    requires EndsWithRecapture(names, r, x)
    ensures x < |names| && UniqueInstances(names) && OthersRest(Last(r), x)
    ensures Last(r)[x].phase in {Publishing, Idle} && !Last(r)[x].inst.running && Last(r)[x].inst.state != START
    ensures Last(r)[x].phase == Idle ==> Last(r)[x].inst.snap == None
    ensures RecaptureAhead(names, r.states[|r.acts| - 1], r.acts[|r.acts| - 1]) <==>
              Dominates(names, Last(r), x, Revision(Last(r)[x]))
  {
    var k := |r.acts| - 1;
    RunInv(names, r.states, r.acts, k);
    StepAt(names, r.states, r.acts, k);
    RecaptureStep(names, r.states[k], r.acts[k], x);
  }

  lemma {:induction false} DominatesSame(names: seq<string>, s: System, t: System, x: nat, r: int)
    requires |s| == |t| == |names| && x < |s|
    requires forall j | 0 <= j < |s| && j != x :: Revision(t[j]) == Revision(s[j])
    ensures Dominates(names, s, x, r) <==> Dominates(names, t, x, r)
  {
  }

  lemma {:induction false} PrepareTick(names: seq<string>, r: Trace, x: nat) returns (q: Trace)
    requires Ok(names, r) && x < |names|
    requires Last(r)[x].phase == Idle && Last(r)[x].inst.state != START && !Last(r)[x].inst.running
    ensures Ok(names, q) && By(q, r, x) && |q.acts| > |r.acts| && Last(q) == Last(r)[x := Last(q)[x]]
    ensures Last(q)[x].phase == Capturing && Last(q)[x].inst == Last(r)[x].inst
    ensures forall k | |r.acts| <= k < |q.acts| :: !Seeds(names, q.states[k], q.acts[k])
  {
    NotFull(Last(r), x);
    q := Tick(names, r, x);
    NotSeeding(names, r, q, x);
  }

  lemma {:induction false} NotSeeding(names: seq<string>, r: Trace, q: Trace, x: nat)
    requires Shaped(names, q.states, q.acts) && q.acts != [] && OnlyPolls(q, r, |q.acts| - 1)
    requires q.acts[|q.acts| - 1] == Act(x) && x < |names| && Choice(names, q.states[|q.acts| - 1], x) == Prepare
    ensures forall k | |r.acts| <= k < |q.acts| :: !Seeds(names, q.states[k], q.acts[k])
  {
  }

  /** After a hard failure the seeder captures once more, and may be left with a snapshot of revision 0. */
  lemma {:induction false} CaptureAgain(names: seq<string>, r: Trace, x: nat) returns (q: Trace)
    requires Ok(names, r) && x < |names|
    requires Last(r)[x].phase == Idle && Last(r)[x].inst.state != START && !Last(r)[x].inst.running
    ensures Ok(names, q) && By(q, r, x) && |q.acts| > |r.acts| && Last(q) == Last(r)[x := Last(q)[x]]
    ensures Last(q)[x].phase == Publishing && !Last(q)[x].inst.running && Revision(Last(q)[x]) == 0
  {
    var p := PrepareTick(names, r, x);
    q := Extend(names, p, Capture(x, true, CfgFound(0, 0)));
  }

  lemma {:induction false} NotFull(s: System, x: nat)
    requires x < |s| && s[x].inst.state != START
    ensures Lookup(Counts(ViewOf(s, |s|)), START) != |s|
  {
    var view := ViewOf(s, |s|);
    SubsetOfRange(InState(view, START), |s|);
    assert x in view && x !in InState(view, START);
  }

  /** Every recapture that is not ahead of everybody else can be continued to a second seeder. */
  lemma {:induction false} BehindIsOvertaken(names: seq<string>, r: Trace, x: nat) returns (q: Trace)
    requires EndsWithRecapture(names, r, x)
    requires !RecaptureAhead(names, r.states[|r.acts| - 1], r.acts[|r.acts| - 1])
    ensures EndsWithOther(names, q, x) && Continues(q, r) && |q.acts| > |r.acts|
  {
    AtRecapture(names, r, x);
    if Last(r)[x].phase == Publishing {
      q := PublishedBehind(names, r, x);
    } else {
      var p := CaptureAgain(names, r, x);
      BehindFramed(names, Last(r), Last(p), x);
      q := PublishedBehind(names, p, x);
    }
  }

  // ---- staying ahead -------------------------------------------------------------------------------------

  lemma {:induction false} WinnerPrefix(names: seq<string>, r: Trace, q: Trace, k: nat)
    requires Continues(q, r) && Shaped(names, r.states, r.acts) && Shaped(names, q.states, q.acts) && k <= |r.acts|
    ensures Winner(names, q.states, q.acts, k) == Winner(names, r.states, r.acts, k)
  {
    if k > 0 { WinnerPrefix(names, r, q, k - 1); }
  }

  lemma {:induction false} AheadPrefix(names: seq<string>, r: Trace, q: Trace, k: nat)
    requires Continues(q, r) && Shaped(names, r.states, r.acts) && Shaped(names, q.states, q.acts) && k < |r.acts|
    ensures AheadAt(names, q.states, q.acts, k) <==> AheadAt(names, r.states, r.acts, k)
  {
    WinnerPrefix(names, r, q, k);
    assert q.states[k] == r.states[k] && q.acts[k] == r.acts[k];
  }

  lemma {:induction false} AheadAfter(names: seq<string>, q: Trace, x: nat, n: nat, k: nat)
    requires Shaped(names, q.states, q.acts) && n <= k < |q.acts| && Winner(names, q.states, q.acts, n) == Some(x)
    requires NoCapture(q, n, x)
    ensures AheadAt(names, q.states, q.acts, k)
  {
    WinnerKept(names, q.states, q.acts, n, k);
  }

  lemma {:induction false} SeederOf(names: seq<string>, r: Trace, q: Trace, x: nat)
    requires EndsWithRecapture(names, r, x) && Shaped(names, q.states, q.acts) && Continues(q, r)
    ensures Winner(names, q.states, q.acts, |r.acts|) == Some(x) && Winner(names, q.states, q.acts, |q.acts|) == Some(x)
  {
    WinnerKept(names, r.states, r.acts, |r.acts| - 1, |r.acts|);
    WinnerPrefix(names, r, q, |r.acts|);
    WinnerKept(names, q.states, q.acts, |r.acts|, |q.acts|);
  }

  /** Without another capture the seeder stays ahead as long as it was ahead in `r`. */
  lemma {:induction false} AheadLater(names: seq<string>, r: Trace, q: Trace, x: nat)
    requires EndsWithRecapture(names, r, x) && Ok(names, q) && Continues(q, r) && NoCapture(q, |r.acts|, x)
    requires RecaptureAhead(names, r.states[|r.acts| - 1], r.acts[|r.acts| - 1])
    ensures StaysAhead(names, q.states, q.acts)
  {
    SeederOf(names, r, q, x);
    forall k | 0 <= k < |q.acts| ensures AheadAt(names, q.states, q.acts, k) {
      if k < |r.acts| {
        assert AheadAt(names, r.states, r.acts, k);
        AheadPrefix(names, r, q, k);
      } else {
        AheadAfter(names, q, x, |r.acts|, k);
      }
    }
  }

  /** The exact condition: when the seeder has captured again and is about to publish, some other instance
      can still come to seed, without yet another capture by the seeder, iff what the seeder is about to
      publish is not above what everybody else publishes. */
  lemma {:induction false} RecaptureExactly(names: seq<string>, r: Trace, x: nat)
    requires EndsWithRecapture(names, r, x) && Last(r)[x].phase == Publishing
    ensures (exists q :: Takeover(names, r, x, q)) <==> !RecaptureAhead(names, r.states[|r.acts| - 1], r.acts[|r.acts| - 1])
  {
    AtRecapture(names, r, x);
    if RecaptureAhead(names, r.states[|r.acts| - 1], r.acts[|r.acts| - 1]) {
      forall q | Takeover(names, r, x, q) ensures false { NoTakeover(names, r, x, q); }
    } else {
      var q := PublishedBehind(names, r, x);
    }
  }

  lemma {:induction false} NoTakeover(names: seq<string>, r: Trace, x: nat, q: Trace)
    requires EndsWithRecapture(names, r, x) && Takeover(names, r, x, q)
    ensures !RecaptureAhead(names, r.states[|r.acts| - 1], r.acts[|r.acts| - 1])
  {
    if RecaptureAhead(names, r.states[|r.acts| - 1], r.acts[|r.acts| - 1]) {
      AheadLater(names, r, q, x);
      SeederOf(names, r, q, x);
      OthersNeverSeed(names, q, x);
    }
  }

  lemma {:induction false} OthersNeverSeed(names: seq<string>, q: Trace, x: nat)
    requires Ok(names, q) && StaysAhead(names, q.states, q.acts) && q.acts != []
    requires Winner(names, q.states, q.acts, |q.acts|) == Some(x)
    ensures !EndsWithOther(names, q, x)
  {
    if EndsWithOther(names, q, x) { SeederIsWinner(names, q.states, q.acts, |q.acts| - 1); }
  }
}
