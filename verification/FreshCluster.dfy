/** Clusters that start from nothing: an instance seeds without a snapshot only if there was none to be had. */
module FreshCluster {
  import opened Wrappers
  import opened Statuses
  import opened Operators
  import opened Recovery
  import Durability

  /** The last capture of instance `i` among the first `n` steps. */
  function LastCapture(acts: seq<Step>, i: nat, n: nat): (k: Option<nat>)
    requires n <= |acts|
    ensures k.Some? ==> k.value < n && acts[k.value].Capture? && acts[k.value].i == i
  {
    if n == 0 then None
    else if acts[n - 1].Capture? && acts[n - 1].i == i then Some(n - 1)
    else LastCapture(acts, i, n - 1)
  }

  /** The instance has the snapshot that a capture has found, and does not publish START after a failure. */
  predicate Captured(n: Node, disk: Option<int>, unreadable: bool, cfg: CfgInfo) {
    match ChooseSnapshot(false, disk, unreadable, cfg)
    case Found(sn) => n.inst.snap == Some(sn)
    case NoSnapshot => n.inst.snap == None
    case _ => n.inst.snap == None && n.inst.state != START && n.phase != Publishing
  }

  lemma {:induction false} CapturedStep(names: seq<string>, s: System, a: Step, i: nat, disk: Option<int>,
                                        unreadable: bool, cfg: CfgInfo)
    requires WellFormed(names, s) && CanDo(names, s, a) && i < |s| && NodeInv(a.i, s[a.i])
    requires Captured(s[i], disk, unreadable, cfg) && !(a.Capture? && a.i == i)
    ensures Captured(Do(names, s, a)[i], disk, unreadable, cfg)
  {
    if a.i == i && Seeds(names, s, a) { SeederIsInStart(names, s, a); }
    if a.Act? && a.i == i { assert Do(names, s, a)[i] == DoAct(s[i], Choice(names, s, i)); }
    if a.FinishSeed? && a.i == i { assert Do(names, s, a)[i] == DoSeed(s[i], a.env); }
  }

  /** Throughout an epoch an instance has what its last capture has found. */
  lemma {:induction false} HasLastCapture(names: seq<string>, states: seq<System>, acts: seq<Step>, i: nat, n: nat)
    requires IsRun(names, states, acts) && i < |names| && n <= |acts| && LastCapture(acts, i, n).Some?
    ensures var k := LastCapture(acts, i, n).value;
            Captured(states[n][i], states[k][i].inst.disk, acts[k].unreadable, acts[k].cfg)
  {
    RunNodes(names, states, acts, n - 1);
    StepAt(names, states, acts, n - 1);
    var k, s, a := LastCapture(acts, i, n).value, states[n - 1], acts[n - 1];
    if k == n - 1 {
      assert states[n][i] == DoCapture(s[i], a.unreadable, a.cfg);
    } else {
      HasLastCapture(names, states, acts, i, n - 1);
      CapturedStep(names, s, a, i, states[k][i].inst.disk, acts[k].unreadable, acts[k].cfg);
    }
  }

  /** Whoever decides to seed after a capture has no snapshot iff at its last capture there was no data, and
      the provider answered that it has none; a provider that cannot be reached is not such an answer. */
  lemma {:induction false} SeedsFromNothingExactly(names: seq<string>, states: seq<System>, acts: seq<Step>, l: nat)
    requires IsRun(names, states, acts) && l < |acts| && Seeds(names, states[l], acts[l])
    requires LastCapture(acts, acts[l].i, l).Some?
    ensures var i := acts[l].i;
            var k := LastCapture(acts, i, l).value;
            states[l][i].inst.snap == None <==> states[k][i].inst.disk == None && acts[k].cfg == CfgNone
  {
    HasLastCapture(names, states, acts, acts[l].i, l);
    RunNodes(names, states, acts, l);
    SeederIsInStart(names, states[l], acts[l]);
  }

  /** Everything that instance `j` could have captured at step `k` has at most revision `r`. */
  predicate OfferedAtMost(s: System, a: Step, r: int) {
    a.Capture? && a.i < |s|
    && (s[a.i].inst.disk.Some? && !a.unreadable ==> s[a.i].inst.disk.value <= r)
    && (a.cfg.CfgFound? ==> a.cfg.revision <= r)
  }

  /** At the first decision to seed nobody had been offered more than what the seeder publishes, at its last
      capture: neither readable data nor a file of the provider. */
  lemma {:induction false} NothingNewerWasOffered(names: seq<string>, states: seq<System>, acts: seq<Step>, l: nat, j: nat)
    requires IsRun(names, states, acts) && l < |acts| && Seeds(names, states[l], acts[l])
    requires Winner(names, states, acts, l) == None && j < |names| && LastCapture(acts, j, l).Some?
    ensures var k := LastCapture(acts, j, l).value;
            OfferedAtMost(states[k], acts[k], Revision(states[l][acts[l].i]))
  {
    Durability.QuietUntil(names, states, acts, l);
    SeedViewIsCurrent(names, states[l], acts[l]);
    HasLastCapture(names, states, acts, j, l);
    var k := LastCapture(acts, j, l).value;
    RunNodes(names, states, acts, k);
    StepAt(names, states, acts, k);
    assert states[l][j].inst.state == START;
    assert j != acts[l].i ==> Precedes(Revision(states[l][j]), names[j], Revision(states[l][acts[l].i]), names[acts[l].i]);
  }

  /** So a first seeder without a snapshot starts an empty cluster only if nobody publishes one, and nobody
      was offered any. */
  lemma {:induction false} NobodyWasOfferedAny(names: seq<string>, states: seq<System>, acts: seq<Step>, l: nat)
    requires IsRun(names, states, acts) && l < |acts| && Seeds(names, states[l], acts[l])
    requires Winner(names, states, acts, l) == None && states[l][acts[l].i].inst.snap == None
    ensures forall j: nat | j < |names| :: Revision(states[l][j]) <= 0
    ensures forall j: nat | j < |names| && LastCapture(acts, j, l).Some? ::
              OfferedAtMost(states[LastCapture(acts, j, l).value], acts[LastCapture(acts, j, l).value], 0)
  {
    Durability.QuietUntil(names, states, acts, l);
    SeedViewIsCurrent(names, states[l], acts[l]);
    forall j: nat | j < |names| && j != acts[l].i ensures Revision(states[l][j]) <= 0 {
      assert Precedes(Revision(states[l][j]), names[j], Revision(states[l][acts[l].i]), names[acts[l].i]);
    }
    forall j: nat | j < |names| && LastCapture(acts, j, l).Some?
      ensures OfferedAtMost(states[LastCapture(acts, j, l).value], acts[LastCapture(acts, j, l).value], 0)
    {
      NothingNewerWasOffered(names, states, acts, l, j);
    }
  }
}
