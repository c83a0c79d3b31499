/** What the protocol keeps: committed revisions, and what joining instances throw away. */
module Durability {
  import opened Wrappers
  import opened Statuses
  import opened Operators
  import opened Recovery

  // ---- the sequential code and the protocol ----------------------------------------------

  /** `order` lists some keys of the view, each once. */
  ghost predicate Distinct(view: map<nat, Seen>, order: seq<nat>) {
    && (forall m | 0 <= m < |order| :: order[m] in view)
    && (forall a, b | 0 <= a < b < |order| :: order[a] != order[b])
  }

  /** `order` is an order in which all the answers of a view can have arrived. */
  ghost predicate Arrival(view: map<nat, Seen>, order: seq<nat>) {
    Distinct(view, order) && forall k | k in view :: k in order
  }

  /** The statuses of a view, in some order of arrival. */
  function Listing(names: seq<string>, view: map<nat, Seen>, order: seq<nat>): (s: seq<Status>)
    requires forall m | 0 <= m < |order| :: order[m] in view && order[m] < |names|
    ensures |s| == |order|
    ensures forall m | 0 <= m < |order| :: s[m] == Status(names[order[m]], view[order[m]].state, view[order[m]].revision)
  {
    seq(|order|, m requires 0 <= m < |order| =>
      Status(names[order[m]], view[order[m]].state, view[order[m]].revision))
  }

  /** The elements of `order` that are in `p`. */
  function Hits(order: seq<nat>, p: set<nat>): set<nat> {
    set m | 0 <= m < |order| && order[m] in p :: order[m]
  }

  lemma {:induction false} HitsLast(order: seq<nat>, p: set<nat>)
    requires order != []
    ensures Hits(order, p) == Hits(order[..|order| - 1], p) + (if order[|order| - 1] in p then {order[|order| - 1]} else {})
  {
    var init := order[..|order| - 1];
    forall x | x in Hits(order, p) && x != order[|order| - 1] ensures x in Hits(init, p) {
      var m :| 0 <= m < |order| && order[m] in p && order[m] == x;
      assert init[m] == x;
    }
    forall x | x in Hits(init, p) ensures x in Hits(order, p) {
      var m :| 0 <= m < |init| && init[m] in p && init[m] == x;
      assert order[m] == x;
    }
  }

  lemma {:induction false} ListingCounts(names: seq<string>, view: map<nat, Seen>, order: seq<nat>, k: PubState)
    requires Distinct(view, order) && forall j | j in view :: j < |names|
    ensures CountState(Listing(names, view, order), k) == |Hits(order, InState(view, k))|
  {
    var p := InState(view, k);
    if order == [] {
      assert Hits(order, p) == {};
    } else {
      var n := |order| - 1;
      ListingCounts(names, view, order[..n], k);
      assert Listing(names, view, order)[..n] == Listing(names, view, order[..n]);
      HitsLast(order, p);
      assert order[n] !in Hits(order[..n], p);
    }
  }

  lemma {:induction false} CountsMatch(names: seq<string>, view: map<nat, Seen>, order: seq<nat>, k: PubState)
    requires Arrival(view, order) && forall j | j in view :: j < |names|
    ensures CountState(Listing(names, view, order), k) == Lookup(Counts(view), k)
  {
    ListingCounts(names, view, order, k);
    var p := InState(view, k);
    forall j | j in p ensures j in Hits(order, p) {
      var m :| 0 <= m < |order| && order[m] == j;
    }
    assert p == Hits(order, p);
  }

  lemma {:induction false} ElectedIsTop(names: seq<string>, view: map<nat, Seen>, order: seq<nat>, m: nat)
    requires Arrival(view, order) && (forall j | j in view :: j < |names|) && m < |order|
    requires Elected(names, view, order[m])
    ensures IsTop(Listing(names, view, order)[m], Listing(names, view, order))
  {
    var l := Listing(names, view, order);
    forall x | x in l ensures x == l[m] || Statuses.Before(x, l[m]) {
      var p :| 0 <= p < |l| && l[p] == x;
      assert order[p] in view;
    }
  }

  lemma {:induction false} TopIsElected(names: seq<string>, view: map<nat, Seen>, order: seq<nat>, m: nat)
    requires UniqueInstances(names) && Arrival(view, order) && (forall j | j in view :: j < |names|) && m < |order|
    requires IsTop(Listing(names, view, order)[m], Listing(names, view, order))
    ensures Elected(names, view, order[m])
  {
    var l, i := Listing(names, view, order), order[m];
    forall j | j in view && j != i ensures Precedes(view[j].revision, names[j], view[i].revision, names[i]) {
      var p :| 0 <= p < |order| && order[p] == j;
      assert l[p] in l && l[p].name != l[m].name;
    }
  }

  /** fetchStatuses, fed the same answers in any order, yields the counts and the election that the
      protocol uses, hence the same decision. */
  lemma {:induction false} FetchMatchesView(names: seq<string>, view: map<nat, Seen>, order: seq<nat>, i: nat,
                                            f: Fetched, size: nat, running: bool)
    requires UniqueInstances(names) && i < |names| && (forall j | j in view :: j < |names|)
    requires Arrival(view, order) && f.Fetched?
    requires forall k :: Lookup(f.states, k) == CountState(Listing(names, view, order), k)
    requires f.isSeeder <==> exists top :: IsTop(top, Listing(names, view, order)) && top.name == names[i]
    ensures forall k :: Lookup(f.states, k) == Lookup(Counts(view), k)
    ensures f.isSeeder <==> Elected(names, view, i)
    ensures Decide(false, false, running, f.states, size, f.isSeeder)
            == Decide(false, false, running, Counts(view), size, Elected(names, view, i))
  {
    var l := Listing(names, view, order);
    forall k ensures Lookup(f.states, k) == Lookup(Counts(view), k) { CountsMatch(names, view, order, k); }
    if Elected(names, view, i) {
      var m :| 0 <= m < |order| && order[m] == i;
      ElectedIsTop(names, view, order, m);
    }
    if f.isSeeder {
      var top :| IsTop(top, l) && top.name == names[i];
      var m :| 0 <= m < |l| && l[m] == top;
      TopIsElected(names, view, order, m);
      assert names[order[m]] == names[i];
    }
  }

  /** A sequence of steps leads from `s` to `t`. */
  predicate Leads(names: seq<string>, s: System, acts: seq<Step>, t: System)
    requires WellFormed(names, s)
    decreases |acts|
  {
    if acts == [] then s == t
    else CanDo(names, s, acts[0]) && Leads(names, Do(names, s, acts[0]), acts[1..], t)
  }

  lemma {:induction false} LeadsTwo(names: seq<string>, s: System, a: Step, b: Step)
    requires WellFormed(names, s) && CanDo(names, s, a) && CanDo(names, Do(names, s, a), b)
    ensures Leads(names, s, [a, b], Do(names, Do(names, s, a), b))
  {
    assert [a, b][1..] == [b] && [b][1..] == [];
    assert Leads(names, Do(names, s, a), [b], Do(names, Do(names, s, a), b));
  }

  lemma {:induction false} LeadsThree(names: seq<string>, s: System, a: Step, b: Step, c: Step)
    requires WellFormed(names, s) && CanDo(names, s, a)
    requires var u := Do(names, s, a);
             CanDo(names, u, b) && CanDo(names, Do(names, u, b), c)
    ensures var u := Do(names, s, a);
            Leads(names, s, [a, b, c], Do(names, Do(names, u, b), c))
  {
    assert [a, b, c][1..] == [b, c];
    LeadsTwo(names, Do(names, s, a), b, c);
  }

  /** The steps of the protocol that one call of execute() makes when nothing interferes. */
  function TickSteps(n: Node, i: nat, choice: Action, env: Env): seq<Step> {
    match choice
    case StopNow => [Act(i), FinishStop(i)]
    case SeedNow => [Act(i), FinishSeed(i, env.seed)]
    case Prepare =>
      if n.inst.state == START then [Act(i)]
      else if ChooseSnapshot(n.inst.running, n.inst.disk, env.unreadable, env.cfg).Failed? then [Act(i), Capture(i, env.unreadable, env.cfg)]
      else [Act(i), Capture(i, env.unreadable, env.cfg), Publish(i)]
    case _ => [Act(i)]
  }

  lemma {:induction false} LeadsOne(names: seq<string>, s: System, a: Step)
    requires WellFormed(names, s) && CanDo(names, s, a)
    ensures Leads(names, s, [a], Do(names, s, a))
  {
    assert [a][1..] == [];
  }

  /** `t` is `s` after instance `i` carried out `choice` in one call of execute(). */
  predicate Executed(names: seq<string>, s: System, i: nat, choice: Action, env: Env, t: System)
    requires WellFormed(names, s) && i < |s|
  {
    && Leads(names, s, TickSteps(s[i], i, choice, env), t)
    && |t| == |s| && t == s[i := t[i]] && t[i].phase == Idle && t[i].inst == After(s[i].inst, choice, env)
  }

  lemma {:induction false} PrepareIsSteps(names: seq<string>, s: System, i: nat, env: Env) returns (t: System)
    requires WellFormed(names, s) && i < |s| && s[i].phase == Ready && NodeInv(i, s[i])
    requires Choice(names, s, i) == Prepare
    ensures Executed(names, s, i, Prepare, env, t)
  {
    var n, u, c := s[i], Do(names, s, Act(i)), Capture(i, env.unreadable, env.cfg);
    if n.inst.state == START {
      LeadsOne(names, s, Act(i));
      t := u;
    } else {
      var v := Do(names, u, c);
      assert v[i] == DoCapture(u[i], env.unreadable, env.cfg);
      if ChooseSnapshot(n.inst.running, n.inst.disk, env.unreadable, env.cfg).Failed? {
        LeadsTwo(names, s, Act(i), c);
        t := v;
      } else {
        LeadsThree(names, s, Act(i), c, Publish(i));
        t := Do(names, v, Publish(i));
      }
    }
  }

  lemma {:induction false} SeedIsSteps(names: seq<string>, s: System, i: nat, env: Env) returns (t: System)
    requires WellFormed(names, s) && i < |s| && s[i].phase == Ready && NodeInv(i, s[i])
    requires env.seed.empty >= 0
    requires Choice(names, s, i) == SeedNow
    ensures Executed(names, s, i, SeedNow, env, t)
  {
    var u := Do(names, s, Act(i));
    LeadsTwo(names, s, Act(i), FinishSeed(i, env.seed));
    t := Do(names, u, FinishSeed(i, env.seed));
    assert t[i] == DoSeed(u[i], env.seed);
  }

  lemma {:induction false} StopIsSteps(names: seq<string>, s: System, i: nat, env: Env) returns (t: System)
    requires WellFormed(names, s) && i < |s| && s[i].phase == Ready
    requires Choice(names, s, i) == StopNow
    ensures Executed(names, s, i, StopNow, env, t)
  {
    LeadsTwo(names, s, Act(i), FinishStop(i));
    t := Do(names, Do(names, s, Act(i)), FinishStop(i));
  }

  /** execute(), as Operator.Execute computes it, is a sequence of protocol steps: it ends between two
      ticks with exactly the same instance, and no other instance has changed. */
  lemma {:induction false} ExecuteIsSteps(names: seq<string>, s: System, i: nat, env: Env) returns (t: System)
    requires WellFormed(names, s) && i < |s| && s[i].phase == Ready && NodeInv(i, s[i])
    requires env.seed.empty >= 0
    ensures Executed(names, s, i, Choice(names, s, i), env, t)
  {
    var choice := Choice(names, s, i);
    if choice == StopNow {
      t := StopIsSteps(names, s, i, env);
    } else if choice == SeedNow {
      t := SeedIsSteps(names, s, i, env);
    } else if choice == Prepare {
      t := PrepareIsSteps(names, s, i, env);
    } else {
      LeadsOne(names, s, Act(i));
      t := Do(names, s, Act(i));
    }
  }

  // ---- committed revisions ---------------------------------------------------------------

  /** The instance has revision `r` on disk, and in what it publishes or is about to publish. */
  predicate HasData(n: Node, r: int) {
    && n.inst.disk.Some? && n.inst.disk.value >= r
    && (n.inst.state == START || n.phase == Publishing ==> Revision(n) >= r)
  }

  predicate FailsHard(s: System, a: Step) {
    && a.Capture? && a.i < |s|
    && ChooseSnapshot(s[a.i].inst.running, s[a.i].inst.disk, a.unreadable, a.cfg).Failed?
  }

  /** Nobody has recorded that `k` publishes START. */
  predicate Unseen(s: System, k: nat) {
    forall i | 0 <= i < |s| :: k in s[i].half ==> s[i].half[k] != START
  }

  /** `k` does not let go of its data: what it captures covers its data, unless SnapshotInfo fails while
      nobody counts on `k`, and what it restores, if it seeds, reaches its label. */
  predicate SurvivesStep(s: System, a: Step, k: nat) {
    a.i == k && k < |s| ==> CoveringStep(s, a) || (FailsHard(s, a) && Unseen(s, k))
  }

  /** Before anybody decided to seed, at step `m`, `k` had revision `r`; since then it did not let go of it. */
  ghost predicate Survivor(names: seq<string>, states: seq<System>, acts: seq<Step>, k: nat, r: int, m: nat)
    requires IsRun(names, states, acts)
  {
    && k < |names| && m <= |acts| && Winner(names, states, acts, m) == None && HasData(states[m][k], r)
    && forall p | m <= p < |acts| :: SurvivesStep(states[p], acts[p], k)
  }

  /** `r` is published, or about to be, or still on disk to be captured. */
  predicate Holds(n: Node, r: int) {
    && (n.inst.state == START || n.phase == Publishing ==> Revision(n) >= r)
    && (n.inst.running || n.inst.state != START || (n.phase in {Polling, Ready} && n.sawRunning) ==>
          n.inst.disk.Some? && n.inst.disk.value >= r)
  }

  lemma {:induction false} HoldsStep(names: seq<string>, s: System, a: Step, r: int)
    requires WellFormed(names, s) && CanDo(names, s, a) && NodeInv(a.i, s[a.i]) && Holds(s[a.i], r)
    requires CoveringStep(s, a)
    ensures Holds(Do(names, s, a)[a.i], r)
  {
    var n, t := s[a.i], Do(names, s, a)[a.i];
    if a.Act? {
      assert t == DoAct(n, Choice(names, s, a.i));
      if Seeds(names, s, a) { SeederIsInStart(names, s, a); }
    } else if a.Capture? {
      assert t == DoCapture(n, a.unreadable, a.cfg);
      ChosenCoversDisk(n.inst.disk, a.unreadable, a.cfg);
    } else if a.FinishSeed? {
      assert t == DoSeed(n, a.env);
      SeededCovers(n.inst, a.env);
    }
  }

  /** Once a survivor has published something it never falls below `r` again. */
  lemma {:induction false} RevisionKept(names: seq<string>, s: System, a: Step, r: int)
    requires WellFormed(names, s) && CanDo(names, s, a) && NodeInv(a.i, s[a.i]) && Holds(s[a.i], r) && Revision(s[a.i]) >= r
    requires CoveringStep(s, a)
    ensures Revision(Do(names, s, a)[a.i]) >= r
  {
    if a.Capture? { ChosenCoversDisk(s[a.i].inst.disk, a.unreadable, a.cfg); }
  }

  /** What `i` has read of a survivor in START is at least `r`, or is going to be. */
  predicate Marked(s: System, i: nat, k: nat, r: int)
    requires i < |s| && k < |s|
  {
    && (k in s[i].half && s[i].half[k] == START ==> Revision(s[k]) >= r)
    && (k in s[i].view && s[i].view[k].state == START ==> s[i].view[k].revision >= r)
  }

  /** With a survivor `k` around, whoever is about to call Seed has a snapshot of at least `r`. */
  predicate Kept(s: System, k: nat, r: int)
    requires k < |s|
  {
    && Holds(s[k], r) && (forall i | 0 <= i < |s| :: Marked(s, i, k, r))
    && forall i | 0 <= i < |s| && s[i].phase == Seeding :: Revision(s[i]) >= r
  }

  lemma {:induction false} MarkedStep(names: seq<string>, s: System, a: Step, i: nat, k: nat, r: int)
    requires WellFormed(names, s) && CanDo(names, s, a) && i < |s| && k < |s|
    requires NodeInv(i, s[i]) && NodeInv(k, s[k]) && Holds(s[k], r) && Marked(s, i, k, r)
    requires a.i == k ==> CoveringStep(s, a)
    ensures Marked(Do(names, s, a), i, k, r)
  {
    RecordStep(names, s, a, i, k);
    if a.i == k && Revision(s[k]) >= r { RevisionKept(names, s, a, r); }
  }

  /** The elected instance publishes at least what any survivor publishes. */
  lemma {:induction false} DecisionCovers(names: seq<string>, s: System, a: Step, k: nat, r: int)
    requires WellFormed(names, s) && Seeds(names, s, a) && NodeInv(a.i, s[a.i]) && k < |s| && Marked(s, a.i, k, r)
    ensures Revision(s[a.i]) >= r
  {
    SeedsMeans(names, s, a.i);
  }

  lemma {:induction false} KeptStep(names: seq<string>, s: System, a: Step, k: nat, r: int)
    requires WellFormed(names, s) && CanDo(names, s, a) && k < |s| && Kept(s, k, r)
    requires forall i | 0 <= i < |s| :: NodeInv(i, s[i])
    requires a.i == k ==> CoveringStep(s, a)
    ensures Kept(Do(names, s, a), k, r)
  {
    var t := Do(names, s, a);
    if a.i == k { HoldsStep(names, s, a, r); }
    forall i | 0 <= i < |t| ensures Marked(t, i, k, r) { MarkedStep(names, s, a, i, k, r); }
    if t[a.i].phase == Seeding { SeedingStep(names, s, a, k, r); }
  }

  lemma {:induction false} SeedingStep(names: seq<string>, s: System, a: Step, k: nat, r: int)
    requires WellFormed(names, s) && CanDo(names, s, a) && k < |s| && Marked(s, a.i, k, r) && NodeInv(a.i, s[a.i])
    requires s[a.i].phase == Seeding ==> Revision(s[a.i]) >= r
    requires Do(names, s, a)[a.i].phase == Seeding
    ensures Revision(Do(names, s, a)[a.i]) >= r
  {
    if Seeds(names, s, a) { DecisionCovers(names, s, a, k, r); }
  }

  /** A hard failure of a survivor that nobody counts on changes nothing of this. */
  lemma {:induction false} KeptFailure(names: seq<string>, s: System, a: Step, r: int)
    requires WellFormed(names, s) && CanDo(names, s, a) && Kept(s, a.i, r) && FailsHard(s, a) && Unseen(s, a.i)
    requires forall i | 0 <= i < |s| :: NodeInv(i, s[i])
    ensures Kept(Do(names, s, a), a.i, r)
  {
    var t, k := Do(names, s, a), a.i;
    assert t[k] == DoCapture(s[k], a.unreadable, a.cfg);
    forall i | 0 <= i < |t| ensures Marked(t, i, k, r) { assert NodeInv(i, s[i]) && t[i].half == s[i].half; }
  }

  lemma {:induction false} NoWinnerBefore(names: seq<string>, states: seq<System>, acts: seq<Step>, m: nat, p: nat)
    requires Shaped(names, states, acts) && p <= m <= |acts| && Winner(names, states, acts, m) == None
    ensures Winner(names, states, acts, p) == None
  {
    if Winner(names, states, acts, p).Some? { WinnerKept(names, states, acts, p, m); }
  }

  lemma {:induction false} QuietIsAhead(names: seq<string>, states: seq<System>, acts: seq<Step>, m: nat)
    requires Shaped(names, states, acts) && m <= |acts| && Winner(names, states, acts, m) == None
    ensures AheadUntil(names, states, acts, m)
  {
    forall p | 0 <= p < m ensures AheadAt(names, states, acts, p) { NoWinnerBefore(names, states, acts, m, p); }
  }

  /** Until the first decision to seed. */
  lemma {:induction false} QuietUntil(names: seq<string>, states: seq<System>, acts: seq<Step>, m: nat)
    requires IsRun(names, states, acts) && m <= |acts| && Winner(names, states, acts, m) == None
    ensures AheadUntil(names, states, acts, m) && Inv(names, states[m], None)
  {
    QuietIsAhead(names, states, acts, m);
    RunInv(names, states, acts, m);
  }

  /** Whoever has recorded START of `k` before the first decision has recorded what `k` still publishes. */
  lemma {:induction false} KeptAtFirst(names: seq<string>, s: System, k: nat, r: int)
    requires Inv(names, s, None) && k < |s| && HasData(s[k], r)
    ensures Kept(s, k, r)
  {
    forall i | 0 <= i < |s| ensures Marked(s, i, k, r) { assert SeenFrozen(s, i, k) && NodeInv(i, s[i]); }
  }

  lemma {:induction false} SurvivorKept(names: seq<string>, states: seq<System>, acts: seq<Step>, k: nat,
                                        r: int, m: nat, l: nat)
    requires IsRun(names, states, acts) && Survivor(names, states, acts, k, r, m) && m <= l <= |acts|
    ensures Kept(states[l], k, r)
    decreases l
  {
    if l == m {
      QuietUntil(names, states, acts, m);
      KeptAtFirst(names, states[m], k, r);
    } else {
      SurvivorKept(names, states, acts, k, r, m, l - 1);
      RunNodes(names, states, acts, l - 1);
      StepAt(names, states, acts, l - 1);
      SurvivedStep(names, states[l - 1], acts[l - 1], k, r);
    }
  }

  lemma {:induction false} SurvivedStep(names: seq<string>, s: System, a: Step, k: nat, r: int)
    requires WellFormed(names, s) && CanDo(names, s, a) && k < |s| && Kept(s, k, r) && SurvivesStep(s, a, k)
    requires forall i | 0 <= i < |s| :: NodeInv(i, s[i])
    ensures Kept(Do(names, s, a), k, r)
  {
    if a.i != k || CoveringStep(s, a) { KeptStep(names, s, a, k, r); } else { KeptFailure(names, s, a, r); }
  }

  /** Nobody has recorded START of an instance that has not been in START. */
  lemma {:induction false} NeverStartedUnseen(names: seq<string>, states: seq<System>, acts: seq<Step>, k: nat, p: nat)
    requires IsRun(names, states, acts) && k < |names| && p <= |acts|
    requires forall q | 0 <= q <= p :: states[q][k].inst.state != START
    ensures Unseen(states[p], k)
  {
    if p > 0 {
      NeverStartedUnseen(names, states, acts, k, p - 1);
      StepAt(names, states, acts, p - 1);
      forall i | 0 <= i < |states[p]| ensures k in states[p][i].half ==> states[p][i].half[k] != START {
        RecordStep(names, states[p - 1], acts[p - 1], i, k);
      }
    }
  }

  /** Step l ends with a started cluster whose store has this revision. */
  predicate Restores(names: seq<string>, s: System, a: Step, c: int)
    requires WellFormed(names, s)
  {
    a.FinishSeed? && CanDo(names, s, a) &&
    var inst := s[a.i].inst;
    SeedResult(inst.running, inst.disk, inst.snap, a.env) == Started(true, Some(c), true)
  }

  /** The snapshot restored in step l reaches its label. */
  predicate RestoresLabel(s: System, a: Step) { a.i < |s| && ReachesLabel(s[a.i].inst.snap) }

  /** Only the winner calls Seed, and what it starts from is at least what anybody publishes. */
  lemma {:induction false} RestoredIsHighest(names: seq<string>, states: seq<System>, acts: seq<Step>,
                                             l: nat, c: int, k: nat)
    requires IsRun(names, states, acts) && StaysAhead(names, states, acts)
    requires l < |acts| && Restores(names, states[l], acts[l], c) && k < |names|
    ensures Winner(names, states, acts, l) == Some(acts[l].i)
    ensures k != acts[l].i ==> Frozen(states[l][k])
    ensures RestoresLabel(states[l], acts[l]) ==> c >= Revision(states[l][k])
  {
    RunInv(names, states, acts, l);
    var s, x := states[l], acts[l].i;
    if RestoresLabel(s, acts[l]) { SeededCovers(s[x].inst, acts[l].env); }
    assert s[x].phase == Seeding;
    assert k != x ==> Precedes(Revision(s[k]), names[k], Revision(s[x]), names[x]);
  }

  /** If step l restores a file of the provider, the file contains at least revision `r`. */
  predicate FileHolds(s: System, a: Step, r: int) {
    a.i < |s| && (s[a.i].inst.snap.Some? && s[a.i].inst.snap.value.Provided? ==> s[a.i].inst.snap.value.content >= r)
  }

  lemma {:induction false} RestoredFrom(names: seq<string>, s: System, a: Step, c: int, r: int)
    requires WellFormed(names, s) && Restores(names, s, a, c) && NodeInv(a.i, s[a.i]) && Revision(s[a.i]) >= r
    ensures c >= r <==> FileHolds(s, a, r)
    ensures RestoresLabel(s, a) ==> FileHolds(s, a, r)
  {
    if RestoresLabel(s, a) { SeededCovers(s[a.i].inst, a.env); }
  }

  /** One instance that kept its data is enough, even if more than one instance should seed: what is
      restored has its revision, except exactly when it is a file that does not contain it. */
  lemma {:induction false} SurvivorIsCovered(names: seq<string>, states: seq<System>, acts: seq<Step>,
                                             k: nat, r: int, m: nat, l: nat, c: int)
    requires IsRun(names, states, acts) && Survivor(names, states, acts, k, r, m)
    requires l < |acts| && Restores(names, states[l], acts[l], c)
    ensures m <= l
    ensures c >= r <==> FileHolds(states[l], acts[l], r)
    ensures RestoresLabel(states[l], acts[l]) ==> c >= r
  {
    if l < m {
      NoWinnerBefore(names, states, acts, m, l);
      QuietUntil(names, states, acts, l);
    }
    SurvivorKept(names, states, acts, k, r, m, l);
    RunNodes(names, states, acts, l);
    RestoredFrom(names, states[l], acts[l], c, r);
  }

  lemma {:induction false} QuorumMeetsSurvivors(committed: set<nat>, lost: set<nat>, size: nat)
    requires |committed| >= size / 2 + 1 && |lost| < size / 2 + 1
    ensures committed - lost != {}
  {
    if committed - lost == {} {
      forall k | k in committed ensures k in lost { assert k !in committed - lost; }
      SubsetSize(committed, lost);
    }
  }

  lemma {:induction false} SubsetSize<T>(a: set<T>, b: set<T>)
    requires a <= b
    ensures |a| <= |b|
  {
    if a != {} {
      var x :| x in a;
      SubsetSize(a - {x}, b - {x});
    }
  }

  /** No committed revision is lost by re-seeding. `r` reached a majority, each instance `k` of it at a step
      `at[k]` before the first decision to seed, and fewer instances than a majority lost their data since,
      or captured a snapshot below it. Then every cluster that is seeded in the epoch starts from at least
      `r`, except exactly when it is restored from a file that does not contain `r`; a file that reaches its
      label does. */
  lemma {:induction false} NoCommittedRevisionLost(names: seq<string>, states: seq<System>, acts: seq<Step>,
                                at: map<nat, nat>, lost: set<nat>, r: int, l: nat, c: int)
    requires IsRun(names, states, acts)
    requires |at.Keys| >= |names| / 2 + 1 && |lost| < |names| / 2 + 1
    requires forall k | k in at && k !in lost :: Survivor(names, states, acts, k, r, at[k])
    requires l < |acts| && Restores(names, states[l], acts[l], c)
    ensures c >= r <==> FileHolds(states[l], acts[l], r)
    ensures RestoresLabel(states[l], acts[l]) ==> c >= r
  {
    QuorumMeetsSurvivors(at.Keys, lost, |names|);
    var k :| k in at.Keys - lost;
    SurvivorIsCovered(names, states, acts, k, r, at[k], l, c);
  }

  /** What the statuses show when a cluster is started: if its snapshot reaches its label, it has every
      revision that somebody publishes; and if it contains no more than its label, it has no other. */
  lemma {:induction false} PublishedIsRestored(names: seq<string>, states: seq<System>, acts: seq<Step>, l: nat, c: int, r: int)
    requires IsRun(names, states, acts) && StaysAhead(names, states, acts)
    requires l < |acts| && Restores(names, states[l], acts[l], c) && RestoresLabel(states[l], acts[l])
    ensures (exists k :: 0 <= k < |names| && Revision(states[l][k]) >= r) ==> c >= r
    ensures c <= Revision(states[l][acts[l].i]) ==>
              (c >= r <==> exists k :: 0 <= k < |names| && Revision(states[l][k]) >= r)
  {
    forall k: nat | k < |names| ensures c >= Revision(states[l][k]) { RestoredIsHighest(names, states, acts, l, c, k); }
  }

  // ---- joining after the recovery ----------------------------------------------------------

  /** What an instance waiting in START has on disk is covered by what it publishes. */
  predicate DiskIsPublished(n: Node) {
    (n.inst.state == START && !n.inst.running) || n.phase == Publishing ==>
      n.inst.disk.Some? ==> n.inst.disk.value <= Revision(n)
  }

  /** `k` never captured a snapshot that was older than its data. */
  predicate NeverOlder(states: seq<System>, acts: seq<Step>, k: nat)
    requires |states| == |acts| + 1
  {
    forall l | 0 <= l < |acts| && acts[l].Capture? && acts[l].i == k && k < |states[l]| ::
      !CapturesOlder(states[l][k].inst.disk, acts[l].unreadable, acts[l].cfg)
  }

  lemma {:induction false} PublishedStep(names: seq<string>, s: System, a: Step)
    requires WellFormed(names, s) && CanDo(names, s, a) && NodeInv(a.i, s[a.i]) && DiskIsPublished(s[a.i])
    requires s[a.i].inst.state == START ==> Frozen(s[a.i])
    requires s[a.i].phase != Seeding
    requires a.Capture? ==> !CapturesOlder(s[a.i].inst.disk, a.unreadable, a.cfg)
    ensures DiskIsPublished(Do(names, s, a)[a.i])
  {
    var n, t := s[a.i], Do(names, s, a)[a.i];
    match a {
      case Act(i) =>
        assert t == DoAct(n, Choice(names, s, i));
        if Seeds(names, s, a) { SeederIsInStart(names, s, a); }
      case Capture(i, unreadable, cfg) =>
        assert t == DoCapture(n, unreadable, cfg);
        if n.inst.disk.Some? { OlderSnapshotExactly(n.inst.disk, unreadable, cfg); }
      case _ =>
    }
  }

  lemma {:induction false} WaitingIsPublished(names: seq<string>, states: seq<System>, acts: seq<Step>, k: nat, l: nat)
    requires IsRun(names, states, acts) && l <= |acts| && AheadUntil(names, states, acts, l)
    requires k < |names| && NeverOlder(states, acts, k) && DiskIsPublished(states[0][k])
    requires Winner(names, states, acts, l) != Some(k)
    ensures DiskIsPublished(states[l][k])
  {
    if l > 0 {
      WaitingIsPublished(names, states, acts, k, l - 1);
      RunInv(names, states, acts, l - 1);
      StepAt(names, states, acts, l - 1);
      PublishedNext(names, states[l - 1], acts[l - 1], Winner(names, states, acts, l - 1), k);
    }
  }

  lemma {:induction false} PublishedNext(names: seq<string>, s: System, a: Step, w: Option<nat>, k: nat)
    requires Inv(names, s, w) && CanDo(names, s, a) && k < |s| && DiskIsPublished(s[k]) && w != Some(k)
    requires a.Capture? && a.i == k ==> !CapturesOlder(s[k].inst.disk, a.unreadable, a.cfg)
    ensures DiskIsPublished(Do(names, s, a)[k])
  {
    if a.i == k { PublishedStep(names, s, a); }
  }

  /** So an instance that held `r` at any time before the first decision, and did not capture below its data
      up to then, had it in what it published, too. */
  lemma {:induction false} HeldIsPublished(names: seq<string>, states: seq<System>, acts: seq<Step>, k: nat, r: int, m: nat)
    requires IsRun(names, states, acts) && m <= |acts| && Winner(names, states, acts, m) == None
    requires k < |names| && NeverOlder(states, acts, k) && DiskIsPublished(states[0][k])
    requires states[m][k].inst.disk.Some? && states[m][k].inst.disk.value >= r
    ensures HasData(states[m][k], r)
  {
    QuietUntil(names, states, acts, m);
    WaitingIsPublished(names, states, acts, k, m);
  }

  datatype Joiner = Joiner(i: nat, env: JoinEnv)

  /** An instance observes the new cluster as healthy and joins it. */
  function JoinOne(s: System, j: Joiner): System
    requires j.i < |s|
  {
    var env := Env(false, CfgNone, SeedEnv(false, false, false, 0), j.env, true);
    s[j.i := s[j.i].(inst := After(s[j.i].inst, Join, env))]
  }

  /** Calls of Join, one after the other: an instance calls it, as often as it takes, while it is not running. */
  predicate CanJoin(s: System, joins: seq<Joiner>)
    decreases |joins|
  {
    joins == [] ||
    (joins[0].i < |s| && !s[joins[0].i].inst.running && CanJoin(JoinOne(s, joins[0]), joins[1..]))
  }

  /** The revisions in the data directories that these calls remove. */
  function Wiped(s: System, joins: seq<Joiner>): seq<int>
    requires CanJoin(s, joins)
    decreases |joins|
  {
    if joins == [] then []
    else
      var disk := s[joins[0].i].inst.disk;
      (if JoinWipes(disk, joins[0].env) && disk.Some? then [disk.value] else [])
      + Wiped(JoinOne(s, joins[0]), joins[1..])
  }

  predicate BelowUnlessRunning(n: Node, c: int) { !n.inst.running && n.inst.disk.Some? ==> n.inst.disk.value <= c }

  lemma {:induction false} WipedAreBounded(s: System, joins: seq<Joiner>, c: int)
    requires CanJoin(s, joins)
    requires forall m | 0 <= m < |joins| :: joins[m].i < |s| && BelowUnlessRunning(s[joins[m].i], c)
    ensures forall r | r in Wiped(s, joins) :: r <= c
    decreases |joins|
  {
    if joins != [] {
      var t, rest := JoinOne(s, joins[0]), joins[1..];
      forall m | 0 <= m < |rest| ensures rest[m].i < |t| && BelowUnlessRunning(t[rest[m].i], c) {
        assert rest[m] == joins[m + 1];
      }
      WipedAreBounded(t, rest, c);
    }
  }

  /** What joining instances wipe was already covered: after an epoch in which some instance restored
      revision `c`, no data directory removed by the others, however often they try to join, held
      anything newer. */
  lemma {:induction false} JoinsWipeNothingNewer(names: seq<string>, states: seq<System>, acts: seq<Step>,
                                            l: nat, c: int, joins: seq<Joiner>)
    requires IsRun(names, states, acts) && StaysAhead(names, states, acts)
    requires l < |acts| && Restores(names, states[l], acts[l], c) && RestoresLabel(states[l], acts[l])
    requires CanJoin(states[|acts|], joins)
    requires forall m | 0 <= m < |joins| ::
               && joins[m].i < |names| && joins[m].i != acts[l].i
               && NeverOlder(states, acts, joins[m].i) && DiskIsPublished(states[0][joins[m].i])
    ensures forall r | r in Wiped(states[|acts|], joins) :: r <= c
  {
    var s := states[|acts|];
    forall m | 0 <= m < |joins| ensures joins[m].i < |s| && BelowUnlessRunning(s[joins[m].i], c) {
      JoinerIsCovered(names, states, acts, l, c, joins[m].i);
    }
    WipedAreBounded(s, joins, c);
  }

  lemma {:induction false} WaitingIsKept(names: seq<string>, s: System, a: Step, x: nat, k: nat)
    requires Inv(names, s, Some(x)) && CanDo(names, s, a) && k < |s| && k != x
    ensures Do(names, s, a)[k].inst == s[k].inst
  {
    if a.i == k { FrozenStays(names, s, a); }
  }

  lemma {:induction false} WaitingIsKeptLong(names: seq<string>, states: seq<System>, acts: seq<Step>, l: nat,
                                            x: nat, k: nat, m: nat)
    requires IsRun(names, states, acts) && l <= m <= |acts| && k < |names| && k != x
    requires forall p | l <= p < m :: Inv(names, states[p], Some(x))
    ensures states[m][k].inst == states[l][k].inst
    decreases m
  {
    if m > l {
      WaitingIsKeptLong(names, states, acts, l, x, k, m - 1);
      StepAt(names, states, acts, m - 1);
      WaitingIsKept(names, states[m - 1], acts[m - 1], x, k);
    }
  }

  lemma {:induction false} JoinerIsCovered(names: seq<string>, states: seq<System>, acts: seq<Step>, l: nat,
                                           c: int, k: nat)
    requires IsRun(names, states, acts) && StaysAhead(names, states, acts)
    requires l < |acts| && Restores(names, states[l], acts[l], c)
    requires RestoresLabel(states[l], acts[l])
    requires k < |names| && k != acts[l].i && NeverOlder(states, acts, k) && DiskIsPublished(states[0][k])
    ensures states[|acts|][k].inst.disk.Some? ==> states[|acts|][k].inst.disk.value <= c
  {
    RestoredIsHighest(names, states, acts, l, c, k);
    WaitingIsPublished(names, states, acts, k, l);
    forall p: nat | l <= p < |acts| ensures Inv(names, states[p], Some(acts[l].i)) {
      InvFrom(names, states, acts, acts[l].i, l, p);
    }
    WaitingIsKeptLong(names, states, acts, l, acts[l].i, k, |acts|);
  }

  // ---- a recovery that does not end ----------------------------------------------------------

  /** The seeder tried to restore its own data, failed, and has no data any more. */
  predicate Ruined(n: Node) {
    && n.inst.state == START && !n.inst.running && n.inst.disk == None
    && n.inst.snap.Some? && n.inst.snap.value.Local?
    && (n.phase in {Polling, Ready} ==> !n.sawRunning) && n.phase in {Idle, Polling, Ready, Seeding}
  }

  lemma {:induction false} RuinedStays(names: seq<string>, s: System, a: Step, x: nat)
    requires Inv(names, s, Some(x)) && CanDo(names, s, a) && Ruined(s[x])
    ensures Ruined(Do(names, s, a)[x])
    ensures forall c :: !Restores(names, s, a, c)
  {
    if a.i == x && a.Act? { assert Do(names, s, a)[x] == DoAct(s[x], Choice(names, s, x)); }
    if a.i == x && a.FinishSeed? { assert Do(names, s, a)[x] == DoSeed(s[x], a.env); }
  }

  /** Step l restores the seeder's own data and fails after the old data directory is gone. */
  predicate FailsToRestore(s: System, a: Step) {
    && a.FinishSeed? && a.i < |s| && a.env.getOk && !a.env.restoreOk
    && s[a.i].inst.snap.Some? && s[a.i].inst.snap.value.Local? && s[a.i].inst.disk.Some?
  }

  lemma {:induction false} RuinedBy(names: seq<string>, s: System, a: Step, w: Option<nat>)
    requires Inv(names, s, w) && CanDo(names, s, a) && FailsToRestore(s, a)
    ensures w == Some(a.i) && NextWinner(names, s, a, w) == w && Ruined(Do(names, s, a)[a.i])
  {
    FailedRestoreIsFinal(s[a.i].inst.disk, s[a.i].inst.snap.value, a.env, a.env);
    assert Do(names, s, a)[a.i] == DoSeed(s[a.i], a.env);
  }

  lemma {:induction false} RuinedAfter(names: seq<string>, states: seq<System>, acts: seq<Step>, l: nat)
    requires IsRun(names, states, acts) && StaysAhead(names, states, acts)
    requires l < |acts| && FailsToRestore(states[l], acts[l])
    ensures Winner(names, states, acts, l + 1) == Some(acts[l].i) && Ruined(states[l + 1][acts[l].i])
  {
    RunInv(names, states, acts, l);
    StepAt(names, states, acts, l);
    RuinedBy(names, states[l], acts[l], Winner(names, states, acts, l));
  }

  lemma {:induction false} RuinedLater(names: seq<string>, states: seq<System>, acts: seq<Step>, x: nat, l: nat, m: nat)
    requires IsRun(names, states, acts) && l <= m <= |acts| && x < |names| && Ruined(states[l][x])
    requires forall p | l <= p < m :: Inv(names, states[p], Some(x))
    ensures Ruined(states[m][x])
    decreases m
  {
    if l < m {
      RuinedLater(names, states, acts, x, l, m - 1);
      StepAt(names, states, acts, m - 1);
      RuinedStays(names, states[m - 1], acts[m - 1], x);
    }
  }

  lemma {:induction false} InvFrom(names: seq<string>, states: seq<System>, acts: seq<Step>, x: nat, l: nat, m: nat)
    requires IsRun(names, states, acts) && StaysAhead(names, states, acts) && l <= m <= |acts|
    requires Winner(names, states, acts, l) == Some(x)
    ensures Inv(names, states[m], Some(x))
  {
    WinnerKept(names, states, acts, l, m);
    RunInv(names, states, acts, m);
  }

  /** A decision to seed is not yet a cluster: once restoring the seeder's own data has failed, the epoch
      goes on without any cluster being started. */
  lemma {:induction false} FailedRestoreEndsRecovery(names: seq<string>, states: seq<System>, acts: seq<Step>,
                                                     l: nat, m: nat, c: int)
    requires IsRun(names, states, acts) && StaysAhead(names, states, acts)
    requires l < m < |acts| && FailsToRestore(states[l], acts[l])
    ensures !Restores(names, states[m], acts[m], c)
  {
    RuinedAfter(names, states, acts, l);
    forall p: nat | l + 1 <= p <= m ensures Inv(names, states[p], Some(acts[l].i)) {
      InvFrom(names, states, acts, acts[l].i, l + 1, p);
    }
    RuinedLater(names, states, acts, acts[l].i, l + 1, m);
    StepAt(names, states, acts, m);
    RuinedStays(names, states[m], acts[m], acts[l].i);
  }
}
