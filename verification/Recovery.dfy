/**
 * The disaster-recovery protocol: every operator loops evaluate -> execute while nobody observes etcd
 * healthy. Steps of different operators interleave freely, and so do the parts of one tick: a status is
 * read in two steps (the state, then the revision, in the order the status handler reads them),
 * SnapshotInfo and the publication of START are two steps, and the error watcher may clear the running
 * flag at any moment.
 */
module Recovery {
  import opened Wrappers
  import opened Statuses
  import opened Operators

  datatype Phase = Idle | Polling | Ready | Stopping | Capturing | Publishing | Seeding

  datatype Seen = Seen(state: PubState, revision: int)

  /** An instance together with its place in the tick and what it collected in this tick. */
  datatype Node = Node(
    inst: Instance,
    phase: Phase,
    sawRunning: bool,               // evaluate's reading of the running flag
    half: map<nat, PubState>,       // statuses of which only the state was read so far
    view: map<nat, Seen>)           // statuses received

  type System = seq<Node>

  datatype Step =
    | Begin(i: nat)
    | ReadState(i: nat, j: nat)
    | ReadRevision(i: nat, j: nat)
    | EndPolling(i: nat)
    | Act(i: nat)
    | FinishStop(i: nat)
    | Capture(i: nat, unreadable: bool, cfg: CfgInfo)
    | Publish(i: nat)
    | FinishSeed(i: nat, env: SeedEnv)
    | Write(i: nat, revision: int)  // a running etcd member applies an entry
    | Watcher(i: nat)               // the error watcher notices that etcd went away

  // ---- the election on a view ------------------------------------------------------------

  function InState(view: map<nat, Seen>, k: PubState): set<nat> {
    set j | j in view && view[j].state == k
  }

  /** The state counts of a view. */
  function Counts(view: map<nat, Seen>): map<PubState, nat> {
    map[UNKNOWN := |InState(view, UNKNOWN)|, PENDING := |InState(view, PENDING)|,
        OK := |InState(view, OK)|, START := |InState(view, START)|]
  }

  /** `i` is in the view and above everybody else in it. */
  predicate Elected(names: seq<string>, view: map<nat, Seen>, i: nat)
    requires i < |names| && forall j | j in view :: j < |names|
  {
    i in view && forall j | j in view && j != i ::
      Precedes(view[j].revision, names[j], view[i].revision, names[i])
  }

  // ---- steps -------------------------------------------------------------------------------

  predicate WellFormed(names: seq<string>, s: System) {
    && |s| == |names|
    && forall i | 0 <= i < |s| ::
         && (forall j | j in s[i].half :: j < |s|)
         && (forall j | j in s[i].view :: j < |s|)
  }

  function Revision(n: Node): int { Published(n.inst.snap) }

  /** What execute() decides in an unhealthy tick. */
  function Choice(names: seq<string>, s: System, i: nat): Action
    requires WellFormed(names, s) && i < |s|
  {
    Decide(false, false, s[i].sawRunning, Counts(s[i].view), |s|, Elected(names, s[i].view, i))
  }

  predicate CanDo(names: seq<string>, s: System, a: Step)
    requires WellFormed(names, s)
  {
    && a.i < |s|
    && var n := s[a.i];
       match a
       case Begin(i) => n.phase == Idle
       case ReadState(i, j) => n.phase == Polling && j < |s| && j !in n.half
       case ReadRevision(i, j) => n.phase == Polling && j in n.half && j !in n.view
       case EndPolling(i) => n.phase == Polling && n.view != map[]
       case Act(i) => n.phase == Ready
       case FinishStop(i) => n.phase == Stopping
       case Capture(i, _, _) => n.phase == Capturing
       case Publish(i) => n.phase == Publishing
       case FinishSeed(i, env) => n.phase == Seeding && env.empty >= 0
       case Write(i, r) => n.inst.running && n.inst.disk.Some? && r >= n.inst.disk.value
       case Watcher(i) => n.inst.running
  }

  function DoAct(n: Node, choice: Action): Node {
    match choice
    case Confirm => n.(inst := n.inst.(state := PENDING), phase := Idle)
    case StopNow => n.(inst := n.inst.(state := PENDING), phase := Stopping)
    case SeedNow => n.(inst := n.inst.(state := START), phase := Seeding)
    case _ =>
      if n.inst.state == START then n.(phase := Idle) else n.(phase := Capturing)
  }

  function DoCapture(n: Node, unreadable: bool, cfg: CfgInfo): Node {
    match ChooseSnapshot(n.inst.running, n.inst.disk, unreadable, cfg)
    case Found(sn) => n.(inst := n.inst.(snap := Some(sn)), phase := Publishing)
    case NoSnapshot => n.(inst := n.inst.(snap := None), phase := Publishing)
    case _ => n.(inst := n.inst.(snap := None), phase := Idle)
  }

  function DoSeed(n: Node, env: SeedEnv): Node {
    var r := SeedResult(n.inst.running, n.inst.disk, n.inst.snap, env);
    n.(inst := n.inst.(running := r.running, disk := r.disk), phase := Idle)
  }

  /** Only node a.i changes. */
  function DoNode(names: seq<string>, s: System, a: Step): Node
    requires WellFormed(names, s) && CanDo(names, s, a)
  {
    var n := s[a.i];
    match a
    case Begin(i) => n.(phase := Polling, sawRunning := n.inst.running, half := map[], view := map[])
    case ReadState(i, j) => n.(half := n.half[j := s[j].inst.state])
    case ReadRevision(i, j) => n.(view := n.view[j := Seen(n.half[j], Revision(s[j]))])
    case EndPolling(i) => n.(phase := Ready)
    case Act(i) => DoAct(n, Choice(names, s, i))
    case FinishStop(i) => n.(inst := n.inst.(running := false), phase := Idle)
    case Capture(i, unreadable, cfg) => DoCapture(n, unreadable, cfg)
    case Publish(i) => n.(inst := n.inst.(state := START), phase := Idle)
    case FinishSeed(i, env) => DoSeed(n, env)
    case Write(i, r) => n.(inst := n.inst.(disk := Some(r)))
    case Watcher(i) => n.(inst := n.inst.(running := false))
  }

  function Do(names: seq<string>, s: System, a: Step): (t: System)
    requires WellFormed(names, s) && CanDo(names, s, a)
    ensures WellFormed(names, t)
  {
    s[a.i := DoNode(names, s, a)]
  }

  /** The step at which an operator decides to call Seed. */
  predicate Seeds(names: seq<string>, s: System, a: Step)
    requires WellFormed(names, s)
  {
    a.Act? && CanDo(names, s, a) && Choice(names, s, a.i) == SeedNow
  }

  // ---- runs ----------------------------------------------------------------------------------

  predicate UniqueInstances(names: seq<string>) {
    forall i, j | 0 <= i < j < |names| :: names[i] != names[j]
  }

  /** Everybody is between two ticks; a running member has a database; an instance that already
      publishes START is stopped, and its snapshot, if local, is what is in its data directory. */
  predicate Init(names: seq<string>, s: System) {
    && |s| == |names| > 0 && UniqueInstances(names)
    && forall i | 0 <= i < |s| ::
         && s[i].phase == Idle && s[i].half == map[] && s[i].view == map[]
         && (s[i].inst.running ==> s[i].inst.disk.Some?)
         && (s[i].inst.state == START ==> !s[i].inst.running && LocalIsOnDisk(s[i]))
  }

  predicate LocalIsOnDisk(n: Node) {
    n.inst.snap.Some? && n.inst.snap.value.Local? && n.inst.disk.Some? ==>
      n.inst.snap.value.revision <= n.inst.disk.value
  }

  /** One epoch: `states` are joined by the steps `acts`. */
  ghost predicate IsRun(names: seq<string>, states: seq<System>, acts: seq<Step>) {
    && Shaped(names, states, acts)
    && Init(names, states[0])
    && (forall k | 0 <= k < |acts| :: acts[k].i < |names|)
    && (forall k | 0 <= k < |acts| :: Linked(names, states, acts, k))
  }

  ghost predicate Shaped(names: seq<string>, states: seq<System>, acts: seq<Step>) {
    |states| == |acts| + 1 && forall k | 0 <= k < |states| :: WellFormed(names, states[k])
  }

  /** Step k is possible and leads to the next state. */
  ghost predicate Linked(names: seq<string>, states: seq<System>, acts: seq<Step>, k: nat)
    requires |states| == |acts| + 1 && k < |acts| && WellFormed(names, states[k])
  {
    CanDo(names, states[k], acts[k]) && states[k + 1] == Do(names, states[k], acts[k])
  }

  lemma {:induction false} StepAt(names: seq<string>, states: seq<System>, acts: seq<Step>, k: nat)
    requires IsRun(names, states, acts) && k < |acts|
    ensures CanDo(names, states[k], acts[k]) && states[k + 1] == Do(names, states[k], acts[k])
  {
    assert Linked(names, states, acts, k);
  }

  /** The first instance that decided to seed before step k. */
  ghost function Winner(names: seq<string>, states: seq<System>, acts: seq<Step>, k: nat): Option<nat>
    requires Shaped(names, states, acts) && k <= |acts|
  {
    if k == 0 then None
    else NextWinner(names, states[k - 1], acts[k - 1], Winner(names, states, acts, k - 1))
  }

  function NextWinner(names: seq<string>, s: System, a: Step, w: Option<nat>): (v: Option<nat>)
    requires WellFormed(names, s)
    ensures w.Some? ==> v == w
  {
    if w == None && Seeds(names, s, a) then Some(a.i) else w
  }

  /** Whenever the seeder captures again, what it is going to publish is above what everybody else publishes. */
  ghost predicate StaysAhead(names: seq<string>, states: seq<System>, acts: seq<Step>)
    requires IsRun(names, states, acts)
  {
    AheadUntil(names, states, acts, |acts|)
  }

  ghost predicate AheadUntil(names: seq<string>, states: seq<System>, acts: seq<Step>, n: nat)
    requires Shaped(names, states, acts) && n <= |acts|
  {
    forall k | 0 <= k < n :: AheadAt(names, states, acts, k)
  }

  ghost predicate AheadAt(names: seq<string>, states: seq<System>, acts: seq<Step>, k: nat)
    requires Shaped(names, states, acts) && k < |acts|
  {
    Recaptures(names, states, acts, k) ==> RecaptureAhead(names, states[k], acts[k])
  }

  /** Step k is a capture by the instance that was the first to decide to seed. */
  ghost predicate Recaptures(names: seq<string>, states: seq<System>, acts: seq<Step>, k: nat)
    requires Shaped(names, states, acts) && k < |acts|
  {
    acts[k].Capture? && acts[k].i < |names| && Winner(names, states, acts, k) == Some(acts[k].i)
  }

  predicate RecaptureAhead(names: seq<string>, s: System, a: Step)
    requires |s| == |names| && a.Capture? && a.i < |s|
  {
    Dominates(names, s, a.i, Revision(DoCapture(s[a.i], a.unreadable, a.cfg)))
  }

  // ---- the invariant -------------------------------------------------------------------------

  /** `r` published by `x` beats the frozen revision of everybody else. */
  predicate Dominates(names: seq<string>, s: System, x: nat, r: int)
    requires |s| == |names| && x < |s|
  {
    forall k | 0 <= k < |s| && k != x :: Precedes(Revision(s[k]), names[k], r, names[x])
  }

  /** The part that concerns one instance. */
  predicate NodeInv(i: nat, n: Node) {
    && (n.inst.running ==> n.inst.disk.Some?)
    && (n.phase in {Polling, Ready} && !n.sawRunning ==> !n.inst.running)
    && (n.phase in {Capturing, Publishing} ==> !n.inst.running && n.inst.state != START)
    && (n.phase == Seeding ==> !n.inst.running && n.inst.state == START)
    && (n.phase == Stopping ==> n.inst.state != START)
    && (forall j | j in n.view :: j in n.half && n.half[j] == n.view[j].state)
    && (n.phase in {Polling, Ready} && i in n.half ==> n.half[i] == n.inst.state)
    && (n.phase in {Polling, Ready} && i in n.view ==> n.view[i].revision == Revision(n))
    && (n.inst.state == START || n.phase == Publishing ==> LocalIsOnDisk(n))
  }

  /** Frozen: publishes START, is stopped, and is not about to do anything about it. */
  predicate Frozen(n: Node) {
    n.inst.state == START && !n.inst.running && (n.phase in {Polling, Ready} ==> !n.sawRunning)
  }

  /** What may be recorded about an instance that is frozen for the rest of the epoch. */
  predicate SeenFrozen(s: System, i: nat, j: nat)
    requires i < |s| && j < |s|
  {
    && (j in s[i].half && s[i].half[j] == START ==> s[j].inst.state == START)
    && (j in s[i].view && s[i].view[j].state == START ==> s[i].view[j].revision == Revision(s[j]))
  }

  /** Until somebody decides to seed: publishing START means being frozen. */
  predicate Before(names: seq<string>, s: System)
    requires |s| == |names|
  {
    && (forall i | 0 <= i < |s| :: s[i].inst.state == START ==> Frozen(s[i]))
    && (forall i | 0 <= i < |s| :: s[i].phase != Seeding)
    && (forall i, j | 0 <= i < |s| && 0 <= j < |s| :: SeenFrozen(s, i, j))
  }

  predicate SeenWinner(names: seq<string>, s: System, i: nat, x: nat)
    requires |s| == |names| && i < |s| && x < |s|
  {
    x in s[i].view && s[i].view[x].state == START ==> Dominates(names, s, x, s[i].view[x].revision)
  }

  /** Once `x` decided to seed: everybody else stays frozen below `x`. */
  predicate AfterSeed(names: seq<string>, s: System, x: nat)
    requires |s| == |names|
  {
    && x < |s|
    && (forall k | 0 <= k < |s| && k != x :: Frozen(s[k]) && s[k].phase != Seeding)
    && Dominates(names, s, x, Revision(s[x]))
    && (forall i, j | 0 <= i < |s| && 0 <= j < |s| && j != x :: SeenFrozen(s, i, j))
    && (forall i | 0 <= i < |s| :: SeenWinner(names, s, i, x))
  }

  predicate Inv(names: seq<string>, s: System, w: Option<nat>) {
    && WellFormed(names, s) && |s| > 0 && UniqueInstances(names)
    && (forall i | 0 <= i < |s| :: NodeInv(i, s[i]))
    && match w
       case None => Before(names, s)
       case Some(x) => AfterSeed(names, s, x)
  }

  // ---- full views ------------------------------------------------------------------------------

  lemma {:induction false} SubsetOfRange(a: set<nat>, n: nat)
    requires forall j | j in a :: j < n
    ensures |a| <= n
    ensures |a| == n ==> forall j | 0 <= j < n :: j in a
  {
    if n == 0 {
      assert a == {};
    } else {
      var b := a - {n - 1};
      SubsetOfRange(b, n - 1);
      if n - 1 in a { assert a == b + {n - 1}; } else { assert a == b; }
    }
  }

  /** Seeding needs a START answer from every instance, and to be above all of them. */
  lemma {:induction false} SeedsMeans(names: seq<string>, s: System, i: nat)
    requires WellFormed(names, s) && i < |s|
    requires Choice(names, s, i) == SeedNow
    ensures !s[i].sawRunning && Elected(names, s[i].view, i)
    ensures forall j | 0 <= j < |s| :: j in s[i].view && s[i].view[j].state == START
  {
    var view := s[i].view;
    assert Lookup(Counts(view), START) == |InState(view, START)|;
    SubsetOfRange(InState(view, START), |s|);
    forall j | 0 <= j < |s| ensures j in view && view[j].state == START {
      assert j in InState(view, START);
    }
  }

  // ---- every step keeps the invariant ------------------------------------------------------------

  lemma {:induction false} DominatesHigher(names: seq<string>, s: System, x: nat, r: int, q: int)
    requires |s| == |names| && x < |s| && Dominates(names, s, x, r) && r <= q
    ensures Dominates(names, s, x, q)
  {
  }

  /** An operator that decides to seed publishes START already: it reads its own status, too. */
  lemma {:induction false} SeederIsInStart(names: seq<string>, s: System, a: Step)
    requires WellFormed(names, s) && Seeds(names, s, a) && NodeInv(a.i, s[a.i])
    ensures s[a.i].inst.state == START
  {
    SeedsMeans(names, s, a.i);
  }

  lemma {:induction false} NodeStep(names: seq<string>, s: System, a: Step)
    requires WellFormed(names, s) && CanDo(names, s, a)
    requires NodeInv(a.i, s[a.i])
    ensures NodeInv(a.i, Do(names, s, a)[a.i])
  {
    match a {
      case Act(i) =>
        if Seeds(names, s, a) { SeederIsInStart(names, s, a); }
        ActKeeps(i, s[i], Choice(names, s, i));
      case Capture(i, unreadable, cfg) => CaptureKeeps(i, s[i], unreadable, cfg);
      case FinishSeed(i, env) => SeedKeeps(i, s[i], env);
      case _ =>
    }
  }

  lemma {:induction false} ActKeeps(i: nat, n: Node, choice: Action)
    requires NodeInv(i, n) && n.phase == Ready
    requires choice in {Confirm, StopNow} <==> n.sawRunning
    requires choice == SeedNow ==> n.inst.state == START
    ensures NodeInv(i, DoAct(n, choice))
  {
  }

  lemma {:induction false} CaptureKeeps(i: nat, n: Node, unreadable: bool, cfg: CfgInfo)
    requires NodeInv(i, n) && n.phase == Capturing
    ensures NodeInv(i, DoCapture(n, unreadable, cfg))
  {
  }

  lemma {:induction false} SeedKeeps(i: nat, n: Node, env: SeedEnv)
    requires NodeInv(i, n) && n.phase == Seeding
    ensures NodeInv(i, DoSeed(n, env))
  {
  }

  /** A frozen instance other than the one that seeds never changes what it publishes. */
  lemma {:induction false} FrozenStays(names: seq<string>, s: System, a: Step)
    requires WellFormed(names, s) && CanDo(names, s, a)
    requires NodeInv(a.i, s[a.i]) && Frozen(s[a.i]) && s[a.i].phase != Seeding
    ensures Frozen(Do(names, s, a)[a.i])
    ensures Do(names, s, a)[a.i].inst == s[a.i].inst
    ensures !Seeds(names, s, a) ==> Do(names, s, a)[a.i].phase != Seeding
  {
  }

  /** A record is kept, or is what the recorded instance shows now. */
  lemma {:induction false} RecordStep(names: seq<string>, s: System, a: Step, i: nat, j: nat)
    requires WellFormed(names, s) && CanDo(names, s, a) && i < |s| && j < |s|
    ensures var n, t := s[i], Do(names, s, a)[i];
            && (j in t.half ==> (j in n.half && t.half[j] == n.half[j]) || t.half[j] == s[j].inst.state)
            && (j in t.view ==> || (j in n.view && t.view[j] == n.view[j])
                                || (j in n.half && t.view[j] == Seen(n.half[j], Revision(s[j]))))
  {
  }

  /** A recorded START stays current as long as the recorded instance is frozen. */
  lemma {:induction false} SeenFrozenStep(names: seq<string>, s: System, a: Step, i: nat, j: nat)
    requires WellFormed(names, s) && CanDo(names, s, a) && i < |s| && j < |s|
    requires NodeInv(i, s[i]) && NodeInv(j, s[j]) && SeenFrozen(s, i, j)
    requires j == a.i && s[j].inst.state == START ==>
               Do(names, s, a)[j].inst.state == START && Revision(Do(names, s, a)[j]) == Revision(s[j])
    ensures SeenFrozen(Do(names, s, a), i, j)
  {
    RecordStep(names, s, a, i, j);
    assert s[j].inst.state == START ==>
      Do(names, s, a)[j].inst.state == START && Revision(Do(names, s, a)[j]) == Revision(s[j]);
  }

  lemma {:induction false} SeenBefore(names: seq<string>, s: System, a: Step)
    requires Inv(names, s, None) && CanDo(names, s, a)
    ensures forall i, j | 0 <= i < |s| && 0 <= j < |s| :: SeenFrozen(Do(names, s, a), i, j)
  {
    var t := Do(names, s, a);
    if s[a.i].inst.state == START { FrozenStays(names, s, a); }
    forall i, j | 0 <= i < |t| && 0 <= j < |t| ensures SeenFrozen(t, i, j) { SeenFrozenStep(names, s, a, i, j); }
  }

  lemma {:induction false} StepBefore(names: seq<string>, s: System, a: Step)
    requires Inv(names, s, None) && CanDo(names, s, a) && !Seeds(names, s, a)
    ensures Inv(names, Do(names, s, a), None)
  {
    var t := Do(names, s, a);
    NodeStep(names, s, a);
    SeenBefore(names, s, a);
    if s[a.i].inst.state == START { FrozenStays(names, s, a); }
    assert t[a.i].phase != Seeding;
    assert t[a.i].inst.state == START ==> Frozen(t[a.i]);
  }

  /** The first decision to seed rests on what everybody publishes at that moment. */
  lemma {:induction false} SeedViewIsCurrent(names: seq<string>, s: System, a: Step)
    requires Inv(names, s, None) && Seeds(names, s, a)
    ensures forall k | 0 <= k < |s| :: s[k].inst.state == START && Frozen(s[k])
    ensures forall k | 0 <= k < |s| && k != a.i :: Precedes(Revision(s[k]), names[k], Revision(s[a.i]), names[a.i])
  {
    SeedsMeans(names, s, a.i);
    forall k | 0 <= k < |s| ensures s[k].inst.state == START && s[a.i].view[k].revision == Revision(s[k]) {
      assert SeenFrozen(s, a.i, k);
    }
  }

  /** At the first decision to seed everybody is frozen, and the seeder is on top. */
  lemma {:induction false} StepSeed(names: seq<string>, s: System, a: Step)
    requires Inv(names, s, None) && Seeds(names, s, a)
    ensures Inv(names, Do(names, s, a), Some(a.i))
  {
    var t, x := Do(names, s, a), a.i;
    NodeStep(names, s, a);
    SeedViewIsCurrent(names, s, a);
    assert t[x].inst == s[x].inst;
    forall k | 0 <= k < |t| && k != x
      ensures Frozen(t[k]) && t[k].phase != Seeding
      ensures Precedes(Revision(t[k]), names[k], Revision(t[x]), names[x])
    {
      assert t[k] == s[k];
    }
    forall i, j | 0 <= i < |t| && 0 <= j < |t| ensures SeenFrozen(t, i, j) {
      SeenFrozenStep(names, s, a, i, j);
    }
    forall i | 0 <= i < |t| ensures SeenWinner(names, t, i, x) {
      assert SeenFrozen(t, i, x);
    }
  }

  /** Nobody but the first seeder ever decides to seed. */
  lemma {:induction false} OnlyWinnerSeeds(names: seq<string>, s: System, a: Step, x: nat)
    requires Inv(names, s, Some(x)) && Seeds(names, s, a)
    ensures a.i == x
  {
    var i := a.i;
    SeedsMeans(names, s, i);
    if i != x {
      assert SeenWinner(names, s, i, x) && SeenFrozen(s, i, i);
      var view := s[i].view;
      assert Precedes(view[x].revision, names[x], view[i].revision, names[i]);
      assert Precedes(Revision(s[i]), names[i], view[x].revision, names[x]);
      PrecedesTotal(view[x].revision, names[x], view[i].revision, names[i]);
    }
  }

  lemma {:induction false} DominatesFramed(names: seq<string>, s: System, t: System, x: nat, r: int)
    requires |s| == |t| == |names| && x < |s| && Dominates(names, s, x, r)
    requires forall k | 0 <= k < |s| && k != x :: Revision(t[k]) == Revision(s[k])
    ensures Dominates(names, t, x, r)
  {
  }

  /** Another instance moves: nothing it publishes changes. */
  lemma {:induction false} StepOther(names: seq<string>, s: System, a: Step, x: nat)
    requires Inv(names, s, Some(x)) && CanDo(names, s, a) && a.i != x
    ensures Inv(names, Do(names, s, a), Some(x))
  {
    var t := Do(names, s, a);
    NodeStep(names, s, a);
    FrozenStays(names, s, a);
    if Seeds(names, s, a) { OnlyWinnerSeeds(names, s, a, x); }
    SeenByOthers(names, s, a, x);
    DominatesFramed(names, s, t, x, Revision(s[x]));
  }

  lemma {:induction false} SeenByOthers(names: seq<string>, s: System, a: Step, x: nat)
    requires Inv(names, s, Some(x)) && CanDo(names, s, a) && a.i != x
    ensures forall i, j | 0 <= i < |s| && 0 <= j < |s| && j != x :: SeenFrozen(Do(names, s, a), i, j)
    ensures forall i | 0 <= i < |s| :: SeenWinner(names, Do(names, s, a), i, x)
  {
    var t := Do(names, s, a);
    FrozenStays(names, s, a);
    forall i, j | 0 <= i < |t| && 0 <= j < |t| && j != x ensures SeenFrozen(t, i, j) {
      SeenFrozenStep(names, s, a, i, j);
    }
    forall i | 0 <= i < |t| ensures SeenWinner(names, t, i, x) { SeenWinnerStep(names, s, a, i, x); }
  }

  /** Whatever the winner publishes dominates, so every later reading of it does. */
  lemma {:induction false} SeenWinnerStep(names: seq<string>, s: System, a: Step, i: nat, x: nat)
    requires WellFormed(names, s) && CanDo(names, s, a) && i < |s| && x < |s|
    requires SeenWinner(names, s, i, x) && Dominates(names, s, x, Revision(s[x]))
    requires forall k | 0 <= k < |s| && k != x :: Revision(Do(names, s, a)[k]) == Revision(s[k])
    ensures SeenWinner(names, Do(names, s, a), i, x)
  {
    var t := Do(names, s, a);
    RecordStep(names, s, a, i, x);
    if x in t[i].view {
      DominatesFramed(names, s, t, x, Revision(s[x]));
      if x in s[i].view && s[i].view[x].state == START { DominatesFramed(names, s, t, x, s[i].view[x].revision); }
    }
  }

  /** The winner moves: what it publishes keeps dominating. */
  lemma {:induction false} WinnerNode(names: seq<string>, s: System, a: Step, x: nat)
    requires Inv(names, s, Some(x)) && CanDo(names, s, a) && a.i == x
    requires a.Capture? ==> RecaptureAhead(names, s, a)
    ensures Dominates(names, s, x, Revision(Do(names, s, a)[x]))
  {
    var t := Do(names, s, a)[x];
    assert a.Act? ==> t == DoAct(s[x], Choice(names, s, x));
    assert a.FinishSeed? ==> t == DoSeed(s[x], a.env);
  }

  /** What Seed leaves in the data directory is at least the published revision. */
  lemma {:induction false} SeededCovers(n: Instance, env: SeedEnv)
    requires !n.running
    requires n.snap.Some? && n.snap.value.Local? && n.disk.Some? ==> n.snap.value.revision <= n.disk.value
    requires ReachesLabel(n.snap) && env.empty >= 0
    ensures var r := SeedResult(n.running, n.disk, n.snap, env);
            && (r.running ==> r.ok && r.disk.Some?)
            && (r.disk.Some? && r.disk != n.disk ==> r.disk.value >= Published(n.snap))
            && (r.ok ==> r.disk.value >= Published(n.snap))
  {
  }

  lemma {:induction false} StepWinner(names: seq<string>, s: System, a: Step, x: nat)
    requires Inv(names, s, Some(x)) && CanDo(names, s, a) && a.i == x
    requires a.Capture? ==> RecaptureAhead(names, s, a)
    ensures Inv(names, Do(names, s, a), Some(x))
  {
    var t := Do(names, s, a);
    NodeStep(names, s, a);
    WinnerNode(names, s, a, x);
    forall i, j | 0 <= i < |t| && 0 <= j < |t| && j != x ensures SeenFrozen(t, i, j) {
      SeenFrozenStep(names, s, a, i, j);
    }
    DominatesFramed(names, s, t, x, Revision(t[x]));
    forall i | 0 <= i < |t| ensures SeenWinner(names, t, i, x) {
      SeenWinnerStep(names, s, a, i, x);
    }
  }

  // ---- whole runs ----------------------------------------------------------------------------------

  lemma {:induction false} InitInv(names: seq<string>, s: System)
    requires WellFormed(names, s) && Init(names, s)
    ensures Inv(names, s, None)
  {
  }

  /** The invariant holds along every run of an epoch. */
  lemma {:induction false} RunInv(names: seq<string>, states: seq<System>, acts: seq<Step>, k: nat)
    requires IsRun(names, states, acts) && k <= |acts| && AheadUntil(names, states, acts, k)
    ensures Inv(names, states[k], Winner(names, states, acts, k))
  {
    if k == 0 {
      InitInv(names, states[0]);
    } else {
      RunInv(names, states, acts, k - 1);
      assert AheadAt(names, states, acts, k - 1);
      RunInvNext(names, states, acts, k - 1);
    }
  }

  lemma {:induction false} RunInvNext(names: seq<string>, states: seq<System>, acts: seq<Step>, k: nat)
    requires IsRun(names, states, acts) && k < |acts| && AheadAt(names, states, acts, k)
    requires Inv(names, states[k], Winner(names, states, acts, k))
    ensures Inv(names, states[k + 1], Winner(names, states, acts, k + 1))
  {
    StepAt(names, states, acts, k);
    StepInv(names, states[k], acts[k], Winner(names, states, acts, k));
  }

  /** Every step keeps the invariant, with the winner chosen at the first decision to seed. */
  lemma {:induction false} StepInv(names: seq<string>, s: System, a: Step, w: Option<nat>)
    requires Inv(names, s, w) && CanDo(names, s, a)
    requires a.Capture? && w == Some(a.i) ==> RecaptureAhead(names, s, a)
    ensures Inv(names, Do(names, s, a), NextWinner(names, s, a, w))
  {
    match w {
      case None =>
        if Seeds(names, s, a) { StepSeed(names, s, a); } else { StepBefore(names, s, a); }
      case Some(x) =>
        if a.i == x { StepWinner(names, s, a, x); } else { StepOther(names, s, a, x); }
    }
  }

  lemma {:induction false} WinnerKept(names: seq<string>, states: seq<System>, acts: seq<Step>, k: nat, l: nat)
    requires Shaped(names, states, acts) && k <= l <= |acts| && Winner(names, states, acts, k).Some?
    ensures Winner(names, states, acts, l) == Winner(names, states, acts, k)
    decreases l
  {
    if k < l {
      WinnerKept(names, states, acts, k, l - 1);
      WinnerStays(names, states, acts, l - 1, Winner(names, states, acts, l - 1));
    }
  }

  lemma {:induction false} WinnerStays(names: seq<string>, states: seq<System>, acts: seq<Step>, k: nat, w: Option<nat>)
    requires Shaped(names, states, acts) && k < |acts| && w == Winner(names, states, acts, k) && w.Some?
    ensures Winner(names, states, acts, k + 1) == w
  {
    assert NextWinner(names, states[k], acts[k], w) == w;
  }

  lemma {:induction false} OneWinner(names: seq<string>, states: seq<System>, acts: seq<Step>, k: nat, l: nat)
    requires Shaped(names, states, acts) && k <= |acts| && l <= |acts|
    requires Winner(names, states, acts, k).Some? && Winner(names, states, acts, l).Some?
    ensures Winner(names, states, acts, k) == Winner(names, states, acts, l)
  {
    if k <= l {
      WinnerKept(names, states, acts, k, l);
    } else {
      WinnerKept(names, states, acts, l, k);
    }
  }

  /** The part of the invariant about single instances needs no assumption at all. */
  lemma {:induction false} RunNodes(names: seq<string>, states: seq<System>, acts: seq<Step>, k: nat)
    requires IsRun(names, states, acts) && k <= |acts|
    ensures forall i | 0 <= i < |states[k]| :: NodeInv(i, states[k][i])
  {
    if k == 0 {
      InitInv(names, states[0]);
    } else {
      RunNodes(names, states, acts, k - 1);
      StepAt(names, states, acts, k - 1);
      NodeStep(names, states[k - 1], acts[k - 1]);
    }
  }

  /** SnapshotInfo is called only while the server is stopped, although the decision rests on an
      older reading of the running flag; so it never compares with a nil snapshot. */
  lemma {:induction false} CapturesOnlyWhenStopped(names: seq<string>, states: seq<System>, acts: seq<Step>, k: nat)
    requires IsRun(names, states, acts) && k < |acts| && acts[k].Capture?
    ensures !states[k][acts[k].i].inst.running
    ensures var inst := states[k][acts[k].i].inst;
            !ChooseSnapshot(inst.running, inst.disk, acts[k].unreadable, acts[k].cfg).Panicked?
  {
    RunNodes(names, states, acts, k);
    StepAt(names, states, acts, k);
  }

  /** A decision to seed is always the winner's. */
  lemma {:induction false} SeederIsWinner(names: seq<string>, states: seq<System>, acts: seq<Step>, k: nat)
    requires IsRun(names, states, acts) && k < |acts| && AheadUntil(names, states, acts, k)
    requires Seeds(names, states[k], acts[k])
    ensures Winner(names, states, acts, k + 1) == Some(acts[k].i)
  {
    RunInv(names, states, acts, k);
    match Winner(names, states, acts, k) {
      case None =>
      case Some(x) => OnlyWinnerSeeds(names, states[k], acts[k], x);
    }
  }

  /** At most one seeder: any two instances that decide to seed in one epoch are the same instance,
      however the operators interleave and however often the seeder has to start over. */
  lemma {:induction false} AtMostOneSeeder(names: seq<string>, states: seq<System>, acts: seq<Step>, k: nat, l: nat)
    requires IsRun(names, states, acts) && StaysAhead(names, states, acts)
    requires k < |acts| && Seeds(names, states[k], acts[k])
    requires l < |acts| && Seeds(names, states[l], acts[l])
    ensures acts[k].i == acts[l].i
  {
    SeederIsWinner(names, states, acts, k);
    SeederIsWinner(names, states, acts, l);
    OneWinner(names, states, acts, k + 1, l + 1);
  }

  // ---- a seeder that does not fall behind its own database ----------------------------------------------

  /** What the seeder restores reaches its label, and what it captures later covers its database. */
  ghost predicate SeederCovers(names: seq<string>, states: seq<System>, acts: seq<Step>)
    requires IsRun(names, states, acts)
  {
    forall k | 0 <= k < |acts| :: CoversAt(names, states, acts, k)
  }

  ghost predicate CoversAt(names: seq<string>, states: seq<System>, acts: seq<Step>, k: nat)
    requires Shaped(names, states, acts) && k < |acts|
  {
    acts[k].i < |names| && Winner(names, states, acts, k) == Some(acts[k].i) ==> CoveringStep(states[k], acts[k])
  }

  predicate CoveringStep(s: System, a: Step)
    requires a.i < |s|
  {
    && (a.Capture? ==> CapturesCover(s[a.i].inst.disk, a.unreadable, a.cfg))
    && (a.FinishSeed? ==> ReachesLabel(s[a.i].inst.snap))
  }

  /** While `x` runs, or is on its way to capture again, its database dominates. */
  predicate WinnerDisk(names: seq<string>, s: System, x: nat)
    requires |s| == |names| && x < |s|
  {
    DiskDominates(names, s, x, s[x])
  }

  predicate DiskDominates(names: seq<string>, s: System, x: nat, n: Node)
    requires |s| == |names| && x < |s|
  {
    n.inst.running || n.inst.state != START || (n.phase in {Polling, Ready} && n.sawRunning) ==>
      n.inst.disk.Some? && Dominates(names, s, x, n.inst.disk.value)
  }

  predicate StoresAhead(names: seq<string>, s: System, w: Option<nat>)
    requires |s| == |names|
  {
    w.Some? ==> w.value < |s| && WinnerDisk(names, s, w.value)
  }

  lemma {:induction false} CoveredIsAhead(names: seq<string>, s: System, a: Step, x: nat)
    requires Inv(names, s, Some(x)) && WinnerDisk(names, s, x) && CanDo(names, s, a) && a.Capture? && a.i == x
    requires CoveringStep(s, a)
    ensures RecaptureAhead(names, s, a)
  {
    var n, t := s[x], DoCapture(s[x], a.unreadable, a.cfg);
    ChosenCoversDisk(n.inst.disk, a.unreadable, a.cfg);
    DominatesHigher(names, s, x, n.inst.disk.value, Revision(t));
  }

  lemma {:induction false} SeedDominates(names: seq<string>, s: System, x: nat, env: SeedEnv)
    requires |s| == |names| && x < |s| && NodeInv(x, s[x]) && s[x].phase == Seeding && env.empty >= 0
    requires Dominates(names, s, x, Revision(s[x])) && ReachesLabel(s[x].inst.snap)
    ensures DiskDominates(names, s, x, DoSeed(s[x], env))
  {
    SeededCovers(s[x].inst, env);
    var t := DoSeed(s[x], env);
    if t.inst.running { DominatesHigher(names, s, x, Revision(s[x]), t.inst.disk.value); }
  }

  /** The winner moves: what it stores keeps dominating. */
  lemma {:induction false} WinnerDiskNode(names: seq<string>, s: System, a: Step, x: nat)
    requires Inv(names, s, Some(x)) && WinnerDisk(names, s, x) && CanDo(names, s, a) && a.i == x
    requires CoveringStep(s, a)
    ensures WinnerDisk(names, Do(names, s, a), x)
  {
    var n, t := s[x], Do(names, s, a)[x];
    assert DiskDominates(names, s, x, n);
    if a.Act? {
      assert t == DoAct(n, Choice(names, s, x));
      if Seeds(names, s, a) { SeederIsInStart(names, s, a); }
    } else if a.Capture? {
      assert t == DoCapture(n, a.unreadable, a.cfg);
    } else if a.FinishSeed? {
      SeedDominates(names, s, x, a.env);
    } else if a.Write? {
      if n.inst.disk.Some? && Dominates(names, s, x, n.inst.disk.value) {
        DominatesHigher(names, s, x, n.inst.disk.value, a.revision);
      }
    }
    assert DiskDominates(names, s, x, t);
    WinnerDiskFramed(names, s, Do(names, s, a), x);
  }

  lemma {:induction false} WinnerDiskFramed(names: seq<string>, s: System, t: System, x: nat)
    requires |s| == |t| == |names| && x < |s| && DiskDominates(names, s, x, t[x])
    requires forall k | 0 <= k < |s| && k != x :: t[k] == s[k]
    ensures WinnerDisk(names, t, x)
  {
    if t[x].inst.disk.Some? && Dominates(names, s, x, t[x].inst.disk.value) {
      DominatesFramed(names, s, t, x, t[x].inst.disk.value);
    }
  }

  /** Another instance moves: nothing that it publishes changes. */
  lemma {:induction false} WinnerDiskOther(names: seq<string>, s: System, a: Step, x: nat)
    requires Inv(names, s, Some(x)) && WinnerDisk(names, s, x) && CanDo(names, s, a) && a.i != x
    ensures WinnerDisk(names, Do(names, s, a), x)
  {
    FrozenStays(names, s, a);
    if s[x].inst.disk.Some? && Dominates(names, s, x, s[x].inst.disk.value) {
      DominatesFramed(names, s, Do(names, s, a), x, s[x].inst.disk.value);
    }
  }

  /** A seeder that does not fall behind its database stays ahead of everybody else. */
  lemma {:induction false} CoveringStaysAhead(names: seq<string>, states: seq<System>, acts: seq<Step>, k: nat)
    requires IsRun(names, states, acts) && SeederCovers(names, states, acts) && k <= |acts|
    ensures AheadUntil(names, states, acts, k)
    ensures StoresAhead(names, states[k], Winner(names, states, acts, k))
  {
    if k > 0 {
      CoveringStaysAhead(names, states, acts, k - 1);
      CoveringAt(names, states, acts, k - 1);
      AheadMore(names, states, acts, k - 1);
    }
  }

  lemma {:induction false} AheadMore(names: seq<string>, states: seq<System>, acts: seq<Step>, n: nat)
    requires Shaped(names, states, acts) && n < |acts|
    requires AheadUntil(names, states, acts, n) && AheadAt(names, states, acts, n)
    ensures AheadUntil(names, states, acts, n + 1)
  {
  }

  lemma {:induction false} CoveringAt(names: seq<string>, states: seq<System>, acts: seq<Step>, k: nat)
    requires IsRun(names, states, acts) && SeederCovers(names, states, acts) && k < |acts|
    requires AheadUntil(names, states, acts, k) && StoresAhead(names, states[k], Winner(names, states, acts, k))
    ensures AheadAt(names, states, acts, k) && StoresAhead(names, states[k + 1], Winner(names, states, acts, k + 1))
  {
    RunInv(names, states, acts, k);
    assert CoversAt(names, states, acts, k);
    CoveringNext(names, states, acts, k);
  }

  lemma {:induction false} CoveringNext(names: seq<string>, states: seq<System>, acts: seq<Step>, k: nat)
    requires IsRun(names, states, acts) && k < |acts| && CoversAt(names, states, acts, k)
    requires Inv(names, states[k], Winner(names, states, acts, k))
    requires StoresAhead(names, states[k], Winner(names, states, acts, k))
    ensures AheadAt(names, states, acts, k)
    ensures StoresAhead(names, states[k + 1], Winner(names, states, acts, k + 1))
  {
    StepAt(names, states, acts, k);
    CoveringRunStep(names, states[k], acts[k], Winner(names, states, acts, k));
  }

  lemma {:induction false} CoveringRunStep(names: seq<string>, s: System, a: Step, w: Option<nat>)
    requires Inv(names, s, w) && CanDo(names, s, a)
    requires StoresAhead(names, s, w)
    requires w == Some(a.i) ==> CoveringStep(s, a)
    ensures w == Some(a.i) && a.Capture? ==> RecaptureAhead(names, s, a)
    ensures StoresAhead(names, Do(names, s, a), NextWinner(names, s, a, w))
  {
    if w == Some(a.i) {
      WinnerDiskNode(names, s, a, a.i);
      if a.Capture? { CoveredIsAhead(names, s, a, a.i); }
    } else if w.Some? {
      WinnerDiskOther(names, s, a, w.value);
    } else if Seeds(names, s, a) {
      SeederIsInStart(names, s, a);
      SeedViewIsCurrent(names, s, a);
    }
  }

  /** So there is one seeder in particular if the seeder's database stays covered. */
  lemma {:induction false} OneCoveringSeeder(names: seq<string>, states: seq<System>, acts: seq<Step>, k: nat, l: nat)
    requires IsRun(names, states, acts) && SeederCovers(names, states, acts)
    requires k < |acts| && Seeds(names, states[k], acts[k])
    requires l < |acts| && Seeds(names, states[l], acts[l])
    ensures acts[k].i == acts[l].i
  {
    CoveringStaysAhead(names, states, acts, |acts|);
    AtMostOneSeeder(names, states, acts, k, l);
  }
}
