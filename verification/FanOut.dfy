/**
 * ForEachMember: one goroutine per member, all sending on one channel with room for N messages, and a
 * reader that takes exactly N. A failing callback sends twice: its error, and then the empty string.
 */
module FanOut {

  /** How a member's goroutine fares: the client cannot be created, the callback fails, or it succeeds. */
  datatype Outcome = NoClient | Failing | Fine

  datatype Pc = Calling | InCallback | SendError | SendEmpty | Done

  datatype Msg = Msg(from: nat, isError: bool)

  /** `log` is everything sent so far; the reader has taken `taken` messages, the rest is in the channel. */
  datatype State = State(pcs: seq<Pc>, log: seq<Msg>, taken: nat)

  datatype Step = Go(i: nat) | Send(i: nat) | Receive

  // ---- steps -----------------------------------------------------------------------------

  predicate Shape(o: seq<Outcome>, s: State) {
    |s.pcs| == |o| && s.taken <= |s.log|
  }

  predicate CanDo(o: seq<Outcome>, s: State, a: Step)
    requires Shape(o, s)
  {
    match a
    case Go(i) => i < |o| && s.pcs[i] in {Calling, InCallback}
    case Send(i) => i < |o| && s.pcs[i] in {SendError, SendEmpty} && |s.log| - s.taken < |o|
    case Receive => s.taken < |o| && s.taken < |s.log|
  }

  function NextPc(out: Outcome, pc: Pc): Pc {
    match pc
    case Calling => if out == NoClient then SendError else InCallback
    case InCallback => if out == Failing then SendError else SendEmpty
    case SendError => if out == NoClient then Done else SendEmpty
    case SendEmpty => Done
    case Done => Done
  }

  function Do(o: seq<Outcome>, s: State, a: Step): (t: State)
    requires Shape(o, s) && CanDo(o, s, a)
    ensures Shape(o, t)
  {
    match a
    case Go(i) => s.(pcs := s.pcs[i := NextPc(o[i], s.pcs[i])])
    case Send(i) => s.(pcs := s.pcs[i := NextPc(o[i], s.pcs[i])], log := s.log + [Msg(i, s.pcs[i] == SendError)])
    case Receive => s.(taken := s.taken + 1)
  }

  function Initial(o: seq<Outcome>): (s: State)
    ensures Shape(o, s)
  {
    State(seq(|o|, i => Calling), [], 0)
  }

  /** `steps` is one possible schedule, and it leads to `s`. */
  ghost predicate Reaches(o: seq<Outcome>, steps: seq<Step>, s: State) {
    if steps == [] then s == Initial(o)
    else exists r :: Reaches(o, steps[..|steps| - 1], r) && Shape(o, r) && Follows(o, r, steps[|steps| - 1], s)
  }

  predicate Follows(o: seq<Outcome>, r: State, a: Step, s: State)
    requires Shape(o, r)
  {
    CanDo(o, r, a) && s == Do(o, r, a)
  }

  /** The reader is through its loop; its result is nil if none of the N messages was an error. */
  predicate Returned(o: seq<Outcome>, s: State) { s.taken == |o| }

  predicate IsNil(s: State)
    requires s.taken <= |s.log|
  {
    forall k | 0 <= k < s.taken :: !s.log[k].isError
  }

  // ---- what each sender has sent -------------------------------------------------------------

  /** The messages of sender `i`, in order. */
  function From(log: seq<Msg>, i: nat): seq<bool> {
    if log == [] then []
    else
      var m := log[|log| - 1];
      From(log[..|log| - 1], i) + (if m.from == i then [m.isError] else [])
  }

  function Sent(out: Outcome, pc: Pc): seq<bool> {
    match pc
    case SendEmpty => if out == Failing then [true] else []
    case Done => if out == NoClient then [true] else if out == Failing then [true, false] else [false]
    case _ => []
  }

  predicate PcFits(out: Outcome, pc: Pc) {
    && (pc in {InCallback, SendEmpty} ==> out != NoClient)
    && (pc == SendError ==> out != Fine)
  }

  ghost predicate Inv(o: seq<Outcome>, s: State) {
    && Shape(o, s) && s.taken <= |o| && |s.log| - s.taken <= |o|
    && (forall k | 0 <= k < |s.log| :: s.log[k].from < |o|)
    && (forall i | 0 <= i < |o| :: PcFits(o[i], s.pcs[i]) && From(s.log, i) == Sent(o[i], s.pcs[i]))
  }

  lemma {:induction false} StepInv(o: seq<Outcome>, s: State, a: Step)
    requires Inv(o, s) && CanDo(o, s, a)
    ensures Inv(o, Do(o, s, a))
  {
    var t := Do(o, s, a);
    forall i | 0 <= i < |o| ensures PcFits(o[i], t.pcs[i]) && From(t.log, i) == Sent(o[i], t.pcs[i]) {
      SenderStep(o, s, a, i);
    }
  }

  lemma {:induction false} SenderStep(o: seq<Outcome>, s: State, a: Step, i: nat)
    requires Shape(o, s) && CanDo(o, s, a) && i < |o|
    requires PcFits(o[i], s.pcs[i]) && From(s.log, i) == Sent(o[i], s.pcs[i])
    ensures PcFits(o[i], Do(o, s, a).pcs[i]) && From(Do(o, s, a).log, i) == Sent(o[i], Do(o, s, a).pcs[i])
  {
    if a.Send? { assert Do(o, s, a).log[..|s.log|] == s.log; }
  }

  lemma {:induction false} ReachInv(o: seq<Outcome>, steps: seq<Step>, s: State)
    requires Reaches(o, steps, s)
    ensures Inv(o, s)
  {
    if steps != [] {
      var init, a := steps[..|steps| - 1], steps[|steps| - 1];
      var r :| Reaches(o, init, r) && Shape(o, r) && Follows(o, r, a, s);
      ReachInv(o, init, r);
      StepInv(o, r, a);
    }
  }

  /** What a goroutine has sent when it ends, in every schedule: a failing callback leads to two messages, an
      error and an empty one; anything else to one. The channel never holds more than N. */
  lemma {:induction false} SentExactly(o: seq<Outcome>, steps: seq<Step>, s: State, i: nat)
    requires Reaches(o, steps, s) && i < |o|
    ensures |s.pcs| == |o| && s.taken <= |s.log| <= s.taken + |o|
    ensures s.pcs[i] == Done ==>
              From(s.log, i) == match o[i] case NoClient => [true] case Failing => [true, false] case Fine => [false]
    ensures s.pcs[i] in {Calling, InCallback} ==> From(s.log, i) == []
  {
    ReachInv(o, steps, s);
  }

  // ---- counting ----------------------------------------------------------------------------------

  lemma {:induction false} FromConcat(a: seq<Msg>, b: seq<Msg>, i: nat)
    ensures From(a + b, i) == From(a, i) + From(b, i)
  {
    if b == [] {
      assert a + b == a;
    } else {
      assert (a + b)[..|a + b| - 1] == a + b[..|b| - 1];
      FromConcat(a, b[..|b| - 1], i);
    }
  }

  function Total(log: seq<Msg>, n: nat): nat {
    if n == 0 then 0 else Total(log, n - 1) + |From(log, n - 1)|
  }

  lemma {:induction false} TotalLast(log: seq<Msg>, n: nat)
    requires log != []
    ensures Total(log, n) == Total(log[..|log| - 1], n) + (if log[|log| - 1].from < n then 1 else 0)
  {
    if n > 0 { TotalLast(log, n - 1); }
  }

  /** Every message has one sender. */
  lemma {:induction false} TotalIsLength(log: seq<Msg>, n: nat)
    requires forall k | 0 <= k < |log| :: log[k].from < n
    ensures Total(log, n) == |log|
  {
    if log == [] {
      TotalOfNothing(n);
    } else {
      TotalIsLength(log[..|log| - 1], n);
      TotalLast(log, n);
    }
  }

  lemma {:induction false} TotalOfNothing(n: nat)
    ensures Total([], n) == 0
  {
    if n > 0 { TotalOfNothing(n - 1); }
  }

  /** If nobody sent more than `c` messages, together they sent at most c * n, and c * n only if
      everybody sent exactly `c`. */
  lemma {:induction false} AtMostEach(log: seq<Msg>, n: nat, c: nat)
    requires forall i | 0 <= i < n :: |From(log, i)| <= c
    ensures Total(log, n) <= c * n
    ensures Total(log, n) == c * n ==> forall i | 0 <= i < n :: |From(log, i)| == c
  {
    if n > 0 {
      AtMostEach(log, n - 1, c);
      assert c * n == c * (n - 1) + c;
    }
  }

  lemma {:induction false} AtLeastEach(log: seq<Msg>, n: nat)
    requires forall i | 0 <= i < n :: |From(log, i)| >= 1
    ensures Total(log, n) >= n
  {
    if n > 0 { AtLeastEach(log, n - 1); }
  }

  lemma {:induction false} ErrorIsSent(log: seq<Msg>, k: nat)
    requires k < |log|
    ensures log[k].isError in From(log, log[k].from)
  {
    var m := log[k];
    var front := log[..k + 1];
    assert log == front + log[k + 1..];
    FromConcat(front, log[k + 1..], m.from);
    assert front[..k] == log[..k];
    assert From(front, m.from)[|From(front, m.from)| - 1] == m.isError;
  }

  lemma {:induction false} FlagIsLogged(log: seq<Msg>, i: nat, e: bool)
    requires e in From(log, i)
    ensures exists k :: 0 <= k < |log| && log[k] == Msg(i, e)
  {
    var n := |log| - 1;
    if log[n] != Msg(i, e) {
      FlagIsLogged(log[..n], i, e);
      var k :| 0 <= k < n && log[..n][k] == Msg(i, e);
      assert log[k] == Msg(i, e);
    }
  }

  // ---- exactness ------------------------------------------------------------------------------------

  /** Without an error among the messages taken, a sender has at most one of them, and only if it is fine. */
  lemma {:induction false} CleanPrefix(o: seq<Outcome>, s: State, i: nat)
    requires Inv(o, s) && IsNil(s) && i < |o|
    ensures |From(s.log[..s.taken], i)| <= 1
    ensures |From(s.log[..s.taken], i)| == 1 ==> o[i] == Fine && s.pcs[i] == Done
  {
    var read, rest := s.log[..s.taken], s.log[s.taken..];
    assert s.log == read + rest;
    FromConcat(read, rest, i);
    assert From(read, i) + From(rest, i) == Sent(o[i], s.pcs[i]);
    if true in From(read, i) {
      FlagIsLogged(read, i, true);
      assert false;
    }
    if From(read, i) != [] {
      assert Sent(o[i], s.pcs[i])[0] == From(read, i)[0];
      assert From(read, i)[0] in From(read, i);
    }
  }

  /** The result is nil if and only if every client was created and every callback succeeded, in every
      schedule; a nil result means that every callback has returned. */
  lemma {:induction false} NilExactly(o: seq<Outcome>, steps: seq<Step>, s: State)
    requires Reaches(o, steps, s) && Returned(o, s)
    ensures s.taken <= |s.log|
    ensures IsNil(s) <==> forall i | 0 <= i < |o| :: o[i] == Fine
    ensures IsNil(s) ==> forall i | 0 <= i < |o| :: s.pcs[i] == Done
    ensures forall k | 0 <= k < s.taken && s.log[k].isError :: s.log[k].from < |o| && o[s.log[k].from] != Fine
  {
    ReachInv(o, steps, s);
    if IsNil(s) { NilMeansFine(o, s); }
    forall k | 0 <= k < s.taken && s.log[k].isError ensures o[s.log[k].from] != Fine {
      ErrorIsSent(s.log, k);
    }
  }

  lemma {:induction false} NilMeansFine(o: seq<Outcome>, s: State)
    requires Inv(o, s) && Returned(o, s) && IsNil(s)
    ensures forall i | 0 <= i < |o| :: o[i] == Fine && s.pcs[i] == Done
  {
    var read := s.log[..s.taken];
    forall i | 0 <= i < |o| ensures |From(read, i)| <= 1 { CleanPrefix(o, s, i); }
    TotalIsLength(read, |o|);
    AtMostEach(read, |o|, 1);
    forall i | 0 <= i < |o| ensures o[i] == Fine && s.pcs[i] == Done { CleanPrefix(o, s, i); }
  }

  // ---- nobody is stranded -----------------------------------------------------------------------------

  lemma {:induction false} SentSize(o: seq<Outcome>, s: State, i: nat)
    requires Inv(o, s) && i < |o|
    ensures |From(s.log, i)| <= 2
    ensures |From(s.log, i)| == 2 ==> s.pcs[i] == Done
    ensures s.pcs[i] == Done ==> |From(s.log, i)| >= 1
  {
    assert From(s.log, i) == Sent(o[i], s.pcs[i]);
  }

  /** However the members fail, at most 2N messages are ever sent. */
  lemma {:induction false} AtMostTwicePerMember(o: seq<Outcome>, steps: seq<Step>, s: State)
    requires Reaches(o, steps, s)
    ensures |s.log| <= 2 * |o|
    ensures |s.log| == 2 * |o| ==> forall i | 0 <= i < |o| :: i < |s.pcs| && s.pcs[i] == Done
  {
    ReachInv(o, steps, s);
    forall i | 0 <= i < |o| ensures |From(s.log, i)| <= 2 { SentSize(o, s, i); }
    TotalIsLength(s.log, |o|);
    AtMostEach(s.log, |o|, 2);
    if |s.log| == 2 * |o| {
      forall i | 0 <= i < |o| ensures s.pcs[i] == Done { SentSize(o, s, i); }
    }
  }

  predicate Finished(o: seq<Outcome>, s: State) {
    Returned(o, s) && forall i | 0 <= i < |s.pcs| :: s.pcs[i] == Done
  }

  /** A schedule can stop only when the reader has returned and every goroutine has ended: neither the
      reader nor a sender is ever blocked for good. */
  lemma {:induction false} NeverStuck(o: seq<Outcome>, steps: seq<Step>, s: State)
    requires Reaches(o, steps, s)
    ensures Shape(o, s)
    ensures Finished(o, s) || exists a :: CanDo(o, s, a)
  {
    ReachInv(o, steps, s);
    AtMostTwicePerMember(o, steps, s);
    if i :| 0 <= i < |o| && s.pcs[i] in {Calling, InCallback} {
      assert CanDo(o, s, Go(i));
    } else if s.taken < |o| && s.taken < |s.log| {
      assert CanDo(o, s, Receive);
    } else if i :| 0 <= i < |o| && s.pcs[i] != Done {
      assert CanDo(o, s, Send(i));
    } else {
      forall i | 0 <= i < |o| ensures |From(s.log, i)| >= 1 { SentSize(o, s, i); }
      TotalIsLength(s.log, |o|);
      AtLeastEach(s.log, |o|);
    }
  }

  function Weight(pc: Pc): nat {
    match pc case Calling => 4 case InCallback => 3 case SendError => 2 case SendEmpty => 1 case Done => 0
  }

  function Weights(pcs: seq<Pc>): nat {
    if pcs == [] then 0 else Weights(pcs[..|pcs| - 1]) + Weight(pcs[|pcs| - 1])
  }

  lemma {:induction false} WeightsUpdate(pcs: seq<Pc>, i: nat, pc: Pc)
    requires i < |pcs|
    ensures Weights(pcs[i := pc]) == Weights(pcs) - Weight(pcs[i]) + Weight(pc)
  {
    var n := |pcs| - 1;
    if i == n {
      assert pcs[i := pc][..n] == pcs[..n];
    } else {
      assert pcs[i := pc][..n] == pcs[..n][i := pc];
      WeightsUpdate(pcs[..n], i, pc);
    }
  }

  lemma {:induction false} InitialWeights(n: nat)
    ensures Weights(seq(n, i => Calling)) == 4 * n
  {
    if n > 0 {
      assert seq(n, i => Calling)[..n - 1] == seq(n - 1, i => Calling);
      InitialWeights(n - 1);
    }
  }

  /** Every schedule ends: it has at most five steps per member. */
  lemma {:induction false} SchedulesAreShort(o: seq<Outcome>, steps: seq<Step>, s: State)
    requires Reaches(o, steps, s)
    ensures |steps| + Weights(s.pcs) + |o| - s.taken <= 5 * |o|
    ensures |steps| <= 5 * |o|
  {
    ReachInv(o, steps, s);
    if steps == [] {
      InitialWeights(|o|);
    } else {
      var init, a := steps[..|steps| - 1], steps[|steps| - 1];
      var r :| Reaches(o, init, r) && Shape(o, r) && Follows(o, r, a, s);
      SchedulesAreShort(o, init, r);
      MeasureDrops(o, r, a);
    }
  }

  lemma {:induction false} MeasureDrops(o: seq<Outcome>, r: State, a: Step)
    requires Shape(o, r) && CanDo(o, r, a)
    ensures Weights(Do(o, r, a).pcs) - Do(o, r, a).taken < Weights(r.pcs) - r.taken
  {
    if !a.Receive? { WeightsUpdate(r.pcs, a.i, NextPc(o[a.i], r.pcs[a.i])); }
  }

  /** `at` are the positions of the errors among the messages, in order. */
  predicate ErrorsAt(received: seq<Msg>, at: seq<nat>) {
    && (forall k | 0 <= k < |at| :: at[k] < |received| && received[at[k]].isError)
    && (forall j, k | 0 <= j < k < |at| :: at[j] < at[k])
    && forall m | 0 <= m < |received| && received[m].isError :: m in at
  }

  /** The reader's loop over the messages it takes: one entry for each error, from its sender, in the order
      in which they were taken. */
  method Aggregate(received: seq<Msg>) returns (errAgg: seq<nat>, ghost at: seq<nat>)
    ensures ErrorsAt(received, at) && |errAgg| == |at|
    ensures forall k | 0 <= k < |errAgg| :: errAgg[k] == received[at[k]].from
    ensures errAgg == [] <==> forall k | 0 <= k < |received| :: !received[k].isError
  {
    errAgg, at := [], [];
    for k := 0 to |received|
      invariant ErrorsAt(received[..k], at) && |errAgg| == |at|
      invariant forall m | 0 <= m < |errAgg| :: errAgg[m] == received[at[m]].from
    {
      if received[k].isError {
        errAgg, at := errAgg + [received[k].from], at + [k];
        assert at[|at| - 1] == k;
      }
    }
    assert received[..|received|] == received;
    assert at != [] ==> received[at[0]].isError;
  }
}
