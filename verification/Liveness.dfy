/** Recovery terminates: within four rounds of ticks some operator calls Seed. */
module Liveness {
  import opened Wrappers
  import opened Statuses
  import opened Operators
  import opened Recovery

  /** Every instance answers every status request. */
  ghost predicate AllAnswer(names: seq<string>, states: seq<System>, acts: seq<Step>)
    requires IsRun(names, states, acts)
  {
    forall k | 0 <= k < |acts| && acts[k].EndPolling? :: Complete(|names|, states[k][acts[k].i])
  }

  predicate Complete(size: nat, n: Node) { forall j | 0 <= j < size :: j in n.view }

  /** SnapshotInfo never fails hard. */
  ghost predicate NoHardFailure(names: seq<string>, states: seq<System>, acts: seq<Step>)
    requires IsRun(names, states, acts)
  {
    forall k | 0 <= k < |acts| && acts[k].Capture? ::
      var inst := states[k][acts[k].i].inst;
      !ChooseSnapshot(inst.running, inst.disk, acts[k].unreadable, acts[k].cfg).Failed?
  }

  /** No operator decided to seed before step n. */
  ghost predicate NobodySeeds(names: seq<string>, states: seq<System>, acts: seq<Step>, n: nat)
    requires IsRun(names, states, acts) && n <= |acts|
  {
    forall k | 0 <= k < n :: !Seeds(names, states[k], acts[k])
  }

  /** Instance `i` makes a whole tick between `a` and `b`: it begins at `p`, acts at `c`, ends with step `q`. */
  ghost predicate Tick(states: seq<System>, acts: seq<Step>, i: nat, p: nat, c: nat, q: nat)
    requires |states| == |acts| + 1 && forall k | 0 <= k < |states| :: i < |states[k]|
  {
    && p < c <= q < |acts|
    && acts[p] == Begin(i) && acts[c] == Act(i)
    && (forall m | p < m <= c :: states[m][i].phase in {Polling, Ready})
    && (forall m | c < m <= q :: states[m][i].phase != Idle)
    && states[q + 1][i].phase == Idle
  }

  /** In a round every instance makes at least one whole tick; the ticks may interleave in any way. */
  ghost predicate Round(names: seq<string>, states: seq<System>, acts: seq<Step>, a: nat, b: nat)
    requires IsRun(names, states, acts)
  {
    forall i | 0 <= i < |names| :: HasTick(names, states, acts, i, a, b)
  }

  ghost predicate HasTick(names: seq<string>, states: seq<System>, acts: seq<Step>, i: nat, a: nat, b: nat)
    requires IsRun(names, states, acts) && i < |names|
  {
    exists p: nat, c: nat, q: nat :: a <= p && q < b && Tick(states, acts, i, p, c, q)
  }

  // ---- what holds as long as nobody seeds ------------------------------------------------

  lemma {:induction false} QuietInv(names: seq<string>, states: seq<System>, acts: seq<Step>, k: nat)
    requires IsRun(names, states, acts) && k <= |acts| && NobodySeeds(names, states, acts, k)
    ensures Inv(names, states[k], None)
  {
    if k == 0 {
      InitInv(names, states[0]);
    } else {
      QuietInv(names, states, acts, k - 1);
      StepAt(names, states, acts, k - 1);
      StepBefore(names, states[k - 1], acts[k - 1]);
    }
  }

  lemma {:induction false} ReadyIsComplete(names: seq<string>, states: seq<System>, acts: seq<Step>, k: nat, i: nat)
    requires IsRun(names, states, acts) && AllAnswer(names, states, acts) && k <= |acts| && i < |names|
    ensures states[k][i].phase == Ready ==> Complete(|names|, states[k][i])
  {
    if k > 0 {
      ReadyIsComplete(names, states, acts, k - 1, i);
      StepAt(names, states, acts, k - 1);
    }
  }

  /** The published state never becomes OK again, a stopped server stays stopped, START is kept. */
  lemma {:induction false} QuietStep(names: seq<string>, s: System, a: Step, i: nat)
    requires Inv(names, s, None) && CanDo(names, s, a) && !Seeds(names, s, a) && i < |s|
    ensures s[i].inst.state != OK ==> Do(names, s, a)[i].inst.state != OK
    ensures !s[i].inst.running ==> !Do(names, s, a)[i].inst.running
    ensures s[i].inst.state == START ==> Do(names, s, a)[i].inst.state == START
  {
    if a.i == i && s[i].inst.state == START { FrozenStays(names, s, a); }
  }

  lemma {:induction false} QuietKept(names: seq<string>, states: seq<System>, acts: seq<Step>, k: nat, l: nat, i: nat)
    requires IsRun(names, states, acts) && k <= l <= |acts| && i < |names| && NobodySeeds(names, states, acts, l)
    ensures states[k][i].inst.state != OK ==> states[l][i].inst.state != OK
    ensures !states[k][i].inst.running ==> !states[l][i].inst.running
    ensures states[k][i].inst.state == START ==> states[l][i].inst.state == START
    decreases l
  {
    if k < l {
      QuietKept(names, states, acts, k, l - 1, i);
      QuietInv(names, states, acts, l - 1);
      StepAt(names, states, acts, l - 1);
      QuietStep(names, states[l - 1], acts[l - 1], i);
    }
  }

  // ---- one tick ----------------------------------------------------------------------------

  /** Everything collected so far is among `allowed`. */
  predicate Collected(n: Node, allowed: set<PubState>) {
    (forall j | j in n.half :: n.half[j] in allowed) && (forall j | j in n.view :: n.view[j].state in allowed)
  }

  predicate AllIn(s: System, allowed: set<PubState>) {
    forall j | 0 <= j < |s| :: s[j].inst.state in allowed
  }

  lemma {:induction false} CollectStep(names: seq<string>, s: System, a: Step, i: nat, allowed: set<PubState>)
    requires WellFormed(names, s) && CanDo(names, s, a) && i < |s| && AllIn(s, allowed)
    requires Collected(s[i], allowed)
    ensures Collected(Do(names, s, a)[i], allowed)
  {
    if a.i == i && a.Act? { assert Do(names, s, a)[i] == DoAct(s[i], Choice(names, s, i)); }
  }

  /** During its tick an operator only collects states that were published during the tick. */
  lemma {:induction false} TickCollects(names: seq<string>, states: seq<System>, acts: seq<Step>,
                                        i: nat, p: nat, c: nat, q: nat, m: nat, allowed: set<PubState>)
    requires IsRun(names, states, acts) && i < |names| && Tick(states, acts, i, p, c, q) && p < m <= c
    requires forall t | p <= t <= c :: AllIn(states[t], allowed)
    ensures Collected(states[m][i], allowed)
    decreases m
  {
    StepAt(names, states, acts, m - 1);
    if m > p + 1 {
      TickCollects(names, states, acts, i, p, c, q, m - 1, allowed);
      CollectStep(names, states[m - 1], acts[m - 1], i, allowed);
    }
  }

  /** The reading of the running flag is made at the beginning and kept. */
  lemma {:induction false} TickSaw(names: seq<string>, states: seq<System>, acts: seq<Step>, i: nat, p: nat,
                                   c: nat, q: nat, m: nat)
    requires IsRun(names, states, acts) && i < |names| && Tick(states, acts, i, p, c, q) && p < m <= c
    ensures states[m][i].sawRunning == states[p][i].inst.running
    decreases m
  {
    StepAt(names, states, acts, m - 1);
    if m > p + 1 {
      TickSaw(names, states, acts, i, p, c, q, m - 1);
      assert states[m - 1][i].phase in {Polling, Ready};
    }
  }

  /** Where an instance is between its action and the end of its tick. */
  predicate Finishing(n: Node, saw: bool) {
    if saw then n.inst.state == PENDING && n.phase in {Stopping, Idle}
    else (n.inst.state == START && n.phase == Idle) || n.phase in {Capturing, Publishing}
  }

  lemma {:induction false} TickFinishes(names: seq<string>, states: seq<System>, acts: seq<Step>, i: nat,
                                        p: nat, c: nat, q: nat, m: nat)
    requires IsRun(names, states, acts) && m <= |acts| && NobodySeeds(names, states, acts, m)
    requires NoHardFailure(names, states, acts)
    requires i < |names| && Tick(states, acts, i, p, c, q) && c < m <= q + 1
    ensures Finishing(states[m][i], states[c][i].sawRunning)
    decreases m
  {
    StepAt(names, states, acts, m - 1);
    if m == c + 1 {
      ActFinishes(names, states[c], i);
    } else {
      TickFinishes(names, states, acts, i, p, c, q, m - 1);
      RunNodes(names, states, acts, m - 1);
      FinishingStep(names, states[m - 1], acts[m - 1], i, states[c][i].sawRunning);
    }
  }

  lemma {:induction false} ActFinishes(names: seq<string>, s: System, i: nat)
    requires WellFormed(names, s) && CanDo(names, s, Act(i)) && !Seeds(names, s, Act(i))
    ensures Finishing(Do(names, s, Act(i))[i], s[i].sawRunning)
  {
  }

  lemma {:induction false} FinishingStep(names: seq<string>, s: System, a: Step, i: nat, saw: bool)
    requires WellFormed(names, s) && CanDo(names, s, a) && i < |s| && NodeInv(i, s[i])
    requires Finishing(s[i], saw) && s[i].phase != Idle
    requires a.Capture? && a.i == i ==> !ChooseSnapshot(s[i].inst.running, s[i].inst.disk, a.unreadable, a.cfg).Failed?
    ensures Finishing(Do(names, s, a)[i], saw)
  {
    if a.i == i && a.Capture? { assert Do(names, s, a)[i] == DoCapture(s[i], a.unreadable, a.cfg); }
  }

  predicate Stopped(n: Node) {
    n.phase == Stopping || (!n.inst.running && n.phase in {Idle, Capturing, Publishing})
  }

  /** Without an OK anywhere, a tick of a running instance leads through Stop. */
  lemma {:induction false} TickStops(names: seq<string>, states: seq<System>, acts: seq<Step>, i: nat, p: nat,
                                     c: nat, q: nat, m: nat)
    requires IsRun(names, states, acts) && m <= |acts| && NobodySeeds(names, states, acts, m)
    requires i < |names| && Tick(states, acts, i, p, c, q) && c < m <= q + 1
    requires Collected(states[c][i], {UNKNOWN, PENDING, START})
    ensures Stopped(states[m][i])
    decreases m
  {
    RunNodes(names, states, acts, m - 1);
    StepAt(names, states, acts, m - 1);
    if m == c + 1 {
      ActStops(names, states[c], i);
    } else {
      TickStops(names, states, acts, i, p, c, q, m - 1);
      StoppingStep(names, states[m - 1], acts[m - 1], i);
    }
  }

  lemma {:induction false} ActStops(names: seq<string>, s: System, i: nat)
    requires WellFormed(names, s) && CanDo(names, s, Act(i)) && !Seeds(names, s, Act(i)) && NodeInv(i, s[i])
    requires Collected(s[i], {UNKNOWN, PENDING, START})
    ensures Stopped(Do(names, s, Act(i))[i])
  {
    NoOkStops(names, s, i);
    assert Do(names, s, Act(i))[i] == DoAct(s[i], Choice(names, s, i));
  }

  lemma {:induction false} NoOkStops(names: seq<string>, s: System, i: nat)
    requires WellFormed(names, s) && i < |s| && Collected(s[i], {UNKNOWN, PENDING, START})
    ensures s[i].sawRunning ==> Choice(names, s, i) == StopNow
    ensures !s[i].sawRunning ==> Choice(names, s, i) in {Prepare, SeedNow}
  {
    assert InState(s[i].view, OK) == {};
    assert Lookup(Counts(s[i].view), OK) == 0;
  }

  lemma {:induction false} StoppingStep(names: seq<string>, s: System, a: Step, i: nat)
    requires WellFormed(names, s) && CanDo(names, s, a) && i < |s| && NodeInv(i, s[i])
    requires s[i].phase != Idle && Stopped(s[i])
    ensures Stopped(Do(names, s, a)[i])
  {
  }

  // ---- the four rounds -----------------------------------------------------------------------

  /** Round one: nobody publishes OK any more. */
  lemma {:induction false} RoundOne(names: seq<string>, states: seq<System>, acts: seq<Step>, a: nat, b: nat, i: nat)
    requires IsRun(names, states, acts) && b <= |acts| && NobodySeeds(names, states, acts, b)
    requires NoHardFailure(names, states, acts)
    requires a <= b <= |acts| && Round(names, states, acts, a, b) && i < |names|
    ensures states[b][i].inst.state != OK
  {
    assert HasTick(names, states, acts, i, a, b);
    var p: nat, c: nat, q: nat :| a <= p && q < b && Tick(states, acts, i, p, c, q);
    TickFinishes(names, states, acts, i, p, c, q, q + 1);
    QuietKept(names, states, acts, q + 1, b, i);
  }

  /** Round two: nobody runs any more. */
  lemma {:induction false} RoundTwo(names: seq<string>, states: seq<System>, acts: seq<Step>, a: nat, b: nat, i: nat)
    requires IsRun(names, states, acts) && b <= |acts| && NobodySeeds(names, states, acts, b)
    requires a <= b <= |acts| && Round(names, states, acts, a, b) && i < |names|
    requires forall j | 0 <= j < |names| :: states[a][j].inst.state != OK
    ensures !states[b][i].inst.running
  {
    assert HasTick(names, states, acts, i, a, b);
    var p: nat, c: nat, q: nat :| a <= p && q < b && Tick(states, acts, i, p, c, q);
    forall t | p <= t <= c ensures AllIn(states[t], {UNKNOWN, PENDING, START}) {
      forall j | 0 <= j < |names| ensures states[t][j].inst.state in {UNKNOWN, PENDING, START} {
        QuietKept(names, states, acts, a, t, j);
      }
    }
    TickCollects(names, states, acts, i, p, c, q, c, {UNKNOWN, PENDING, START});
    TickStops(names, states, acts, i, p, c, q, q + 1);
    QuietKept(names, states, acts, q + 1, b, i);
  }

  /** Round three: everybody publishes START. */
  lemma {:induction false} RoundThree(names: seq<string>, states: seq<System>, acts: seq<Step>, a: nat, b: nat, i: nat)
    requires IsRun(names, states, acts) && b <= |acts| && NobodySeeds(names, states, acts, b)
    requires NoHardFailure(names, states, acts)
    requires a <= b <= |acts| && Round(names, states, acts, a, b) && i < |names|
    requires !states[a][i].inst.running
    ensures states[b][i].inst.state == START
  {
    assert HasTick(names, states, acts, i, a, b);
    var p: nat, c: nat, q: nat :| a <= p && q < b && Tick(states, acts, i, p, c, q);
    QuietKept(names, states, acts, a, p, i);
    TickSaw(names, states, acts, i, p, c, q, c);
    TickFinishes(names, states, acts, i, p, c, q, q + 1);
    QuietKept(names, states, acts, q + 1, b, i);
  }

  /** Somebody has the highest (revision, name). */
  lemma {:induction false} TopExists(names: seq<string>, s: System, n: nat) returns (x: nat)
    requires |s| == |names| && UniqueInstances(names) && 0 < n <= |s|
    ensures x < n
    ensures forall k | 0 <= k < n && k != x :: Precedes(Revision(s[k]), names[k], Revision(s[x]), names[x])
  {
    if n == 1 {
      x := 0;
    } else {
      var y := TopExists(names, s, n - 1);
      var z := n - 1;
      PrecedesTotal(Revision(s[z]), names[z], Revision(s[y]), names[y]);
      if Precedes(Revision(s[z]), names[z], Revision(s[y]), names[y]) {
        x := y;
      } else {
        x := z;
        forall k | 0 <= k < n && k != x ensures Precedes(Revision(s[k]), names[k], Revision(s[x]), names[x]) {
          if k != y {
            PrecedesTransitive(Revision(s[k]), names[k], Revision(s[y]), names[y], Revision(s[z]), names[z]);
          }
        }
      }
    }
  }

  lemma {:induction false} FullStart(names: seq<string>, view: map<nat, Seen>)
    requires forall j | j in view :: j < |names| && view[j].state == START
    requires forall j | 0 <= j < |names| :: j in view
    ensures Lookup(Counts(view), START) == |names|
  {
    RangeSize(InState(view, START), |names|);
  }

  lemma {:induction false} RangeSize(a: set<nat>, n: nat)
    requires forall j | 0 <= j < n :: j in a
    requires forall j | j in a :: j < n
    ensures |a| == n
  {
    if n == 0 {
      assert a == {};
    } else {
      RangeSize(a - {n - 1}, n - 1);
      assert a == (a - {n - 1}) + {n - 1};
    }
  }

  /** Round four: with everybody in START, the tick of the highest instance decides to seed. */
  lemma {:induction false} TopSeeds(names: seq<string>, states: seq<System>, acts: seq<Step>, a: nat, x: nat,
                                    p: nat, c: nat, q: nat)
    requires IsRun(names, states, acts) && AllAnswer(names, states, acts)
    requires x < |names| && a <= p && Tick(states, acts, x, p, c, q) && NobodySeeds(names, states, acts, c)
    requires forall j | 0 <= j < |names| :: states[a][j].inst.state == START && !states[a][j].inst.running
    requires forall k | 0 <= k < |names| && k != x ::
               Precedes(Revision(states[a][k]), names[k], Revision(states[a][x]), names[x])
    ensures Seeds(names, states[c], acts[c])
  {
    forall t | p <= t <= c ensures AllIn(states[t], {START}) {
      forall j | 0 <= j < |names| ensures states[t][j].inst.state in {START} { QuietKept(names, states, acts, a, t, j); }
    }
    TickCollects(names, states, acts, x, p, c, q, c, {START});
    TickSaw(names, states, acts, x, p, c, q, c);
    QuietKept(names, states, acts, a, p, x);
    ReadyIsComplete(names, states, acts, c, x);
    QuietInv(names, states, acts, c);
    StepAt(names, states, acts, c);
    var s := states[c];
    FullStart(names, s[x].view);
    forall j | 0 <= j < |names| ensures s[x].view[j].revision == Revision(states[a][j]) {
      RevisionKept(names, states, acts, a, c, j);
      assert SeenFrozen(s, x, j);
    }
    assert Elected(names, s[x].view, x);
  }

  lemma {:induction false} RevisionKept(names: seq<string>, states: seq<System>, acts: seq<Step>, k: nat,
                                        l: nat, j: nat)
    requires IsRun(names, states, acts) && k <= l <= |acts| && j < |names| && NobodySeeds(names, states, acts, l)
    requires states[k][j].inst.state == START
    ensures Revision(states[l][j]) == Revision(states[k][j])
    decreases l
  {
    if k < l {
      RevisionKept(names, states, acts, k, l - 1, j);
      QuietKept(names, states, acts, k, l - 1, j);
      QuietInv(names, states, acts, l - 1);
      StepAt(names, states, acts, l - 1);
      if acts[l - 1].i == j { FrozenStays(names, states[l - 1], acts[l - 1]); }
    }
  }

  /** After three rounds without a decision everybody is stopped and publishes START. */
  lemma {:induction false} ThreeRounds(names: seq<string>, states: seq<System>, acts: seq<Step>, a: nat,
                                       b: nat, c: nat, d: nat, i: nat)
    requires IsRun(names, states, acts) && NoHardFailure(names, states, acts)
    requires a <= b <= c <= d <= |acts| && NobodySeeds(names, states, acts, d) && i < |names|
    requires Round(names, states, acts, a, b) && Round(names, states, acts, b, c) && Round(names, states, acts, c, d)
    ensures states[d][i].inst.state == START && !states[d][i].inst.running
  {
    forall j | 0 <= j < |names| ensures states[b][j].inst.state != OK { RoundOne(names, states, acts, a, b, j); }
    RoundTwo(names, states, acts, b, c, i);
    QuietKept(names, states, acts, c, d, i);
    RoundThree(names, states, acts, c, d, i);
  }

  /** Recovery terminates: in every run of an epoch that contains four rounds in a row, with all
      instances answering and SnapshotInfo never failing hard, some operator decides to seed. */
  lemma {:induction false} SomebodySeeds(names: seq<string>, states: seq<System>, acts: seq<Step>, a: nat,
                                         b: nat, c: nat, d: nat, e: nat)
    requires IsRun(names, states, acts) && AllAnswer(names, states, acts) && NoHardFailure(names, states, acts)
    requires a <= b <= c <= d <= e <= |acts|
    requires Round(names, states, acts, a, b) && Round(names, states, acts, b, c)
    requires Round(names, states, acts, c, d) && Round(names, states, acts, d, e)
    ensures exists k :: 0 <= k < e && Seeds(names, states[k], acts[k])
  {
    if NobodySeeds(names, states, acts, d) {
      forall i | 0 <= i < |names| ensures states[d][i].inst.state == START && !states[d][i].inst.running {
        ThreeRounds(names, states, acts, a, b, c, d, i);
      }
      var x := TopExists(names, states[d], |names|);
      assert HasTick(names, states, acts, x, d, e);
      var p: nat, m: nat, q: nat :| d <= p && q < e && Tick(states, acts, x, p, m, q);
      if NobodySeeds(names, states, acts, m) {
        TopSeeds(names, states, acts, d, x, p, m, q);
      }
    }
  }
}
