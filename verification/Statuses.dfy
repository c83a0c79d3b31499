/** The statuses published by the operators, and the election made from them in fetchStatuses. */
module Statuses {
  import opened Wrappers
  import Strings

  datatype PubState = UNKNOWN | PENDING | OK | START

  /** One instance's answer: its name, and the state and revision it published. */
  datatype Status = Status(name: string, state: PubState, revision: int)

  /** fetchStatuses indexes the last status, so it panics when nobody answered. */
  datatype Fetched = NobodyAnswered | Fetched(isSeeder: bool, states: map<PubState, nat>)

  // ---- the order of the election -----------------------------------------------

  /** By revision, then by name. */
  predicate Precedes(r: int, n: string, q: int, m: string) {
    if r == q then Strings.Less(n, m) else r < q
  }

  predicate Before(a: Status, b: Status) {
    Precedes(a.revision, a.name, b.revision, b.name)
  }

  lemma {:induction false} PrecedesTransitive(r: int, n: string, q: int, m: string, p: int, l: string)
    requires Precedes(r, n, q, m) && Precedes(q, m, p, l)
    ensures Precedes(r, n, p, l)
  {
    if r == q == p { Strings.LessTransitive(n, m, l); }
  }

  lemma {:induction false} PrecedesTotal(r: int, n: string, q: int, m: string)
    requires n != m
    ensures Precedes(r, n, q, m) <==> !Precedes(q, m, r, n)
  {
    Strings.LessTotal(n, m);
  }

  lemma {:induction false} PrecedesIrreflexive(r: int, n: string)
    ensures !Precedes(r, n, r, n)
  {
    Strings.LessIrreflexive(n);
  }

  // ---- sort.Slice ----------------------------------------------------------------

  ghost predicate Sorted(s: seq<Status>) {
    forall i, j | 0 <= i < j < |s| :: !Before(s[j], s[i])
  }

  /** What sort.Slice promises: the same statuses, in order. */
  ghost predicate IsSortOf(t: seq<Status>, s: seq<Status>) {
    multiset(t) == multiset(s) && Sorted(t)
  }

  function Insert(x: Status, s: seq<Status>): (t: seq<Status>) {
    if s == [] || !Before(s[0], x) then [x] + s else [s[0]] + Insert(x, s[1..])
  }

  lemma {:induction false} InsertKeeps(x: Status, s: seq<Status>)
    ensures multiset(Insert(x, s)) == multiset(s) + multiset{x}
    ensures |Insert(x, s)| == |s| + 1
  {
    if s != [] && Before(s[0], x) {
      InsertKeeps(x, s[1..]);
      assert s == [s[0]] + s[1..];
    }
  }

  /** `a` may stand in front of `b`. */
  lemma {:induction false} NotBeforeTransitive(a: Status, b: Status, c: Status)
    requires !Before(b, a) && !Before(c, b)
    ensures !Before(c, a)
  {
    if Before(c, a) {
      if a.name == b.name || b.name == c.name {
        Strings.LessIrreflexive(a.name);
      } else {
        PrecedesTotal(b.revision, b.name, a.revision, a.name);
        PrecedesTransitive(c.revision, c.name, a.revision, a.name, b.revision, b.name);
      }
    }
  }

  lemma {:induction false} InsertSorts(x: Status, s: seq<Status>)
    requires Sorted(s)
    ensures Sorted(Insert(x, s))
  {
    var t := Insert(x, s);
    if s == [] {
    } else if !Before(s[0], x) {
      forall i, j | 0 <= i < j < |t| ensures !Before(t[j], t[i]) {
        if i == 0 && j > 1 { NotBeforeTransitive(x, s[0], s[j - 1]); }
      }
    } else {
      InsertSorts(x, s[1..]);
      var rest := Insert(x, s[1..]);
      InsertKeeps(x, s[1..]);
      forall k | 0 <= k < |rest| ensures !Before(rest[k], s[0]) {
        assert rest[k] in multiset(rest);
        if rest[k] == x {
          if Before(x, s[0]) {
            PrecedesTransitive(x.revision, x.name, s[0].revision, s[0].name, x.revision, x.name);
            PrecedesIrreflexive(x.revision, x.name);
          }
        } else {
          assert rest[k] in s[1..];
        }
      }
    }
  }

  function SortStatuses(s: seq<Status>): (t: seq<Status>)
    ensures IsSortOf(t, s)
    ensures |t| == |s|
  {
    if s == [] then [] else
      var t := SortStatuses(s[1..]);
      InsertSorts(s[0], t);
      InsertKeeps(s[0], t);
      assert s == [s[0]] + s[1..];
      Insert(s[0], t)
  }

  // ---- the reference definitions ---------------------------------------------------

  /** The answers among the replies; the others failed and were only logged. */
  function Answered(replies: seq<Option<Status>>): (s: seq<Status>) {
    if replies == [] then []
    else
      var last := replies[|replies| - 1];
      Answered(replies[..|replies| - 1]) + (if last.Some? then [last.value] else [])
  }

  /** Exactly the answers, as often as they came. */
  lemma {:induction false} AnsweredExactly(replies: seq<Option<Status>>, st: Status)
    ensures multiset(Answered(replies))[st] == multiset(replies)[Some(st)]
  {
    if replies != [] {
      AnsweredExactly(replies[..|replies| - 1], st);
      assert replies == replies[..|replies| - 1] + [replies[|replies| - 1]];
    }
  }

  function CountState(s: seq<Status>, k: PubState): nat {
    if s == [] then 0
    else CountState(s[..|s| - 1], k) + (if s[|s| - 1].state == k then 1 else 0)
  }

  /** Go's `states[k]` on a map: 0 for a missing key. */
  function Lookup(states: map<PubState, nat>, k: PubState): nat {
    if k in states then states[k] else 0
  }

  predicate UniqueNames(s: seq<Status>) {
    forall i, j | 0 <= i < j < |s| :: s[i].name != s[j].name
  }

  /** `top` is above every other status. */
  ghost predicate IsTop(top: Status, s: seq<Status>) {
    top in s && forall x | x in s :: x == top || Before(x, top)
  }

  /** Where the statuses in this state are. */
  function PositionsOf(s: seq<Status>, k: PubState): set<int> { set i | 0 <= i < |s| && s[i].state == k }

  lemma {:induction false} CountIsNumber(s: seq<Status>, k: PubState)
    ensures CountState(s, k) == |PositionsOf(s, k)|
  {
    if s != [] {
      var n := |s| - 1;
      CountIsNumber(s[..n], k);
      assert PositionsOf(s, k) == PositionsOf(s[..n], k) + if s[n].state == k then {n} else {};
    }
  }

  lemma {:induction false} CountsAddUp(s: seq<Status>)
    ensures CountState(s, UNKNOWN) + CountState(s, PENDING) + CountState(s, OK) + CountState(s, START) == |s|
  {
    if s != [] { CountsAddUp(s[..|s| - 1]); }
  }

  lemma {:induction false} CountAppend(s: seq<Status>, t: seq<Status>, k: PubState)
    ensures CountState(s + t, k) == CountState(s, k) + CountState(t, k)
  {
    if t == [] {
      assert s + t == s;
    } else {
      assert (s + t)[..|s + t| - 1] == s + t[..|t| - 1];
      CountAppend(s, t[..|t| - 1], k);
    }
  }

  lemma {:induction false} RemoveOne(t: seq<Status>, i: nat, k: PubState)
    requires i < |t|
    ensures multiset(t[..i] + t[i + 1..]) == multiset(t) - multiset{t[i]}
    ensures CountState(t, k) == CountState(t[..i] + t[i + 1..], k) + (if t[i].state == k then 1 else 0)
  {
    assert t == t[..i] + [t[i]] + t[i + 1..];
    CountAppend(t[..i] + [t[i]], t[i + 1..], k);
    CountAppend(t[..i], t[i + 1..], k);
    assert (t[..i] + [t[i]])[..i] == t[..i];
  }

  /** Counting does not depend on the order in which the answers arrived. */
  lemma {:induction false} CountOfPermutation(s: seq<Status>, t: seq<Status>, k: PubState)
    requires multiset(s) == multiset(t)
    ensures CountState(s, k) == CountState(t, k)
    decreases |s|
  {
    if s == [] {
      assert |multiset(t)| == 0;
    } else {
      var n := |s| - 1;
      assert s[n] in multiset(t);
      var i :| 0 <= i < |t| && t[i] == s[n];
      RemoveOne(s, n, k);
      RemoveOne(t, i, k);
      CountOfPermutation(s[..n] + s[n + 1..], t[..i] + t[i + 1..], k);
    }
  }

  /** Whatever order the answers came in and however ties are broken while sorting, the status
      sorted last is the one top status. */
  lemma {:induction false} LastOfSortIsTop(s: seq<Status>, t: seq<Status>)
    requires IsSortOf(t, s) && s != [] && UniqueNames(s)
    ensures t != [] && IsTop(t[|t| - 1], s)
    ensures forall x | IsTop(x, s) :: x == t[|t| - 1]
  {
    assert |t| == |s| by { assert |multiset(t)| == |multiset(s)|; }
    var top := t[|t| - 1];
    assert top in multiset(s);
    forall x | x in s ensures x == top || Before(x, top) {
      assert x in multiset(t);
      var i :| 0 <= i < |t| && t[i] == x;
      if x != top {
        assert !Before(top, x);
        assert x.name != top.name;
        PrecedesTotal(x.revision, x.name, top.revision, top.name);
      }
    }
    forall x | IsTop(x, s) ensures x == top {
      if x != top {
        assert Before(x, top) && Before(top, x);
        PrecedesTotal(x.revision, x.name, top.revision, top.name);
      }
    }
  }

  /** Two operators that received the same answers in different orders elect the same instance. */
  lemma {:induction false} ElectionIgnoresArrival(s: seq<Status>, u: seq<Status>, t: seq<Status>, v: seq<Status>)
    requires multiset(s) == multiset(u) && s != [] && UniqueNames(s) && UniqueNames(u)
    requires IsSortOf(t, s) && IsSortOf(v, u)
    ensures t != [] && v != [] && t[|t| - 1] == v[|v| - 1]
  {
    assert |s| == |multiset(s)| == |u|;
    LastOfSortIsTop(s, t);
    LastOfSortIsTop(u, v);
    assert forall x :: x in s <==> x in multiset(s);
    assert forall x :: x in u <==> x in multiset(u);
    assert IsTop(v[|v| - 1], s);
  }

  /** Being on top, spelled out: nobody has a higher revision, and among equals nobody has a later name. */
  lemma {:induction false} OnTopMeans(s: seq<Status>)
    ensures forall mine | mine in s :: IsTop(mine, s) <==>
              && (forall other | other in s :: other.revision <= mine.revision)
              && (forall other | other in s && other.revision == mine.revision && other != mine ::
                    Strings.Less(other.name, mine.name))
  {
  }

  // ---- fetchStatuses -----------------------------------------------------------------

  method CountStates(statuses: seq<Status>) returns (states: map<PubState, nat>)
    ensures forall k :: Lookup(states, k) == CountState(statuses, k)
  {
    states := map[];
    for i := 0 to |statuses|
      invariant forall k :: Lookup(states, k) == CountState(statuses[..i], k)
    {
      var state := statuses[i].state;
      if state !in states {
        states := states[state := 0];
      }
      states := states[state := states[state] + 1];
      assert statuses[..i + 1][..i] == statuses[..i];
    }
    assert statuses[..|statuses|] == statuses;
  }

  /** Collect, sort, count, elect. `replies` lists the instances in the order their requests ended. */
  method FetchStatuses(replies: seq<Option<Status>>, self: string) returns (r: Fetched)
    ensures r.NobodyAnswered? <==> Answered(replies) == []
    ensures r.Fetched? ==> forall k :: Lookup(r.states, k) == CountState(Answered(replies), k)
    ensures r.Fetched? && UniqueNames(Answered(replies)) ==>
              (r.isSeeder <==> exists top :: IsTop(top, Answered(replies)) && top.name == self)
    ensures r.Fetched? && UniqueNames(Answered(replies)) ==>
              (r.isSeeder <==>
                 exists mine | mine in Answered(replies) ::
                   && mine.name == self
                   && (forall other | other in Answered(replies) :: other.revision <= mine.revision)
                   && (forall other | other in Answered(replies) && other.revision == mine.revision && other != mine ::
                         Strings.Less(other.name, self)))
  {
    var ecoStatuses: seq<Status> := [];
    for i := 0 to |replies|
      invariant ecoStatuses == Answered(replies[..i])
    {
      assert replies[..i + 1][..i] == replies[..i];
      match replies[i] {
        case None =>
        case Some(st) => ecoStatuses := ecoStatuses + [st];
      }
    }
    assert replies[..|replies|] == replies;
    ghost var answered := ecoStatuses;
    ecoStatuses := SortStatuses(ecoStatuses);
    if |ecoStatuses| == 0 {
      return NobodyAnswered;
    }
    var ecoStates := CountStates(ecoStatuses);
    forall k ensures CountState(ecoStatuses, k) == CountState(answered, k) {
      CountOfPermutation(ecoStatuses, answered, k);
    }
    if UniqueNames(answered) {
      LastOfSortIsTop(answered, ecoStatuses);
      assert IsTop(ecoStatuses[|ecoStatuses| - 1], answered);
      OnTopMeans(answered);
    }
    r := Fetched(ecoStatuses[|ecoStatuses| - 1].name == self, ecoStates);
  }
}
