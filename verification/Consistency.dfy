/** getSameValue and IsConsistent: what their answers mean, whatever order a Go map is iterated in. */
module Consistency {
  import opened Wrappers

  const ATTEMPTS := 15

  /** Zeros, and then one value only. */
  ghost predicate Accepted(vals: seq<int>) {
    exists z | 0 <= z <= |vals| :: ZerosThen(vals, z)
  }

  predicate ZerosThen(vals: seq<int>, z: nat)
    requires z <= |vals|
  {
    && (forall k | 0 <= k < z :: vals[k] == 0)
    && (forall k | z <= k < |vals| :: vals[k] == vals[z] != 0)
  }

  predicate AllEqual(vals: seq<int>) {
    forall j, k | 0 <= j < |vals| && 0 <= k < |vals| :: vals[j] == vals[k]
  }

  predicate NonZeroEqual(vals: seq<int>) {
    forall j, k | 0 <= j < |vals| && 0 <= k < |vals| && vals[j] != 0 && vals[k] != 0 :: vals[j] == vals[k]
  }

  /** `vals` lists the values of the map in the order of this iteration. */
  method GetSameValue(vals: seq<int>) returns (same: bool)
    ensures same <==> Accepted(vals)
  {
    var rv := 0;
    ghost var z := 0;
    for i := 0 to |vals|
      invariant 0 <= z <= i
      invariant forall k | 0 <= k < z :: vals[k] == 0
      invariant rv == 0 ==> z == i
      invariant rv != 0 ==> z < i && forall k | z <= k < i :: vals[k] == rv
    {
      var v := vals[i];
      if rv == 0 {
        rv := v;
        if v == 0 { z := i + 1; }
      }
      if rv != v {
        RejectedAt(vals, z, i);
        return false;
      }
    }
    assert ZerosThen(vals, z);
    same := true;
  }

  lemma {:induction false} RejectedAt(vals: seq<int>, z: nat, i: nat)
    requires z < i < |vals| && vals[z] != 0 && vals[i] != vals[z]
    ensures !Accepted(vals)
  {
    forall y: nat | y <= |vals| ensures !ZerosThen(vals, y) {
      if y <= z { assert vals[z] != vals[y] || vals[i] != vals[y]; }
    }
  }

  // ---- the role of zero --------------------------------------------------------------

  /** Without a zero the answer is exactly "all equal", so it cannot depend on the order. */
  lemma {:induction false} ExactWithoutZero(vals: seq<int>)
    requires forall k | 0 <= k < |vals| :: vals[k] != 0
    ensures Accepted(vals) <==> AllEqual(vals)
  {
    if AllEqual(vals) { assert ZerosThen(vals, 0); }
    forall z: nat | 0 < z <= |vals| ensures !ZerosThen(vals, z) { assert vals[0] != 0; }
  }

  lemma {:induction false} AcceptedIsNonZeroEqual(vals: seq<int>)
    requires Accepted(vals)
    ensures NonZeroEqual(vals)
  {
    var z :| 0 <= z <= |vals| && ZerosThen(vals, z);
  }

  /** The values with (or without) zero, in their order. */
  function Select(vals: seq<int>, zero: bool): (s: seq<int>)
    ensures forall k | 0 <= k < |s| :: (s[k] == 0) == zero
  {
    if vals == [] then []
    else
      var rest := Select(vals[1..], zero);
      if (vals[0] == 0) == zero then [vals[0]] + rest else rest
  }

  lemma {:induction false} SelectSplits(vals: seq<int>)
    ensures multiset(Select(vals, true)) + multiset(Select(vals, false)) == multiset(vals)
  {
    if vals != [] {
      SelectSplits(vals[1..]);
      assert vals == [vals[0]] + vals[1..];
    }
  }

  /** The two orders that differ most: zeros first, and zeros last. */
  lemma {:induction false} SelectOrders(vals: seq<int>)
    ensures multiset(Select(vals, true) + Select(vals, false)) == multiset(vals)
    ensures multiset(Select(vals, false) + Select(vals, true)) == multiset(vals)
  {
    SelectSplits(vals);
  }

  ghost predicate Reorders(p: seq<int>, vals: seq<int>) { multiset(p) == multiset(vals) }

  lemma {:induction false} SameElements(a: seq<int>, b: seq<int>)
    requires Reorders(a, b)
    ensures forall x :: x in a <==> x in b
  {
    forall x ensures x in a <==> x in b {
      assert x in a <==> x in multiset(a);
      assert x in b <==> x in multiset(b);
    }
  }

  lemma {:induction false} ZerosFirstAccepted(vals: seq<int>)
    requires NonZeroEqual(vals)
    ensures Reorders(Select(vals, true) + Select(vals, false), vals)
    ensures Accepted(Select(vals, true) + Select(vals, false))
  {
    var a, b := Select(vals, true), Select(vals, false);
    var p := a + b;
    SelectOrders(vals);
    SameElements(p, vals);
    forall k | |a| <= k < |p| ensures p[k] == p[|a|] != 0 {
      assert p[k] == b[k - |a|] && p[|a|] == b[0];
      assert p[k] in vals && p[|a|] in vals;
    }
    assert ZerosThen(p, |a|);
  }

  lemma {:induction false} AcceptedReorder(p: seq<int>, vals: seq<int>)
    requires Reorders(p, vals) && Accepted(p)
    ensures NonZeroEqual(vals)
  {
    AcceptedIsNonZeroEqual(p);
    SameElements(p, vals);
    forall j, k | 0 <= j < |vals| && 0 <= k < |vals| && vals[j] != 0 && vals[k] != 0 ensures vals[j] == vals[k] {
      assert vals[j] in p && vals[k] in p;
    }
  }

  /** The map can be accepted in some order of iteration exactly if its non-zero values agree. */
  lemma {:induction false} SomeOrderAccepts(vals: seq<int>)
    ensures (exists p :: Reorders(p, vals) && Accepted(p)) <==> NonZeroEqual(vals)
  {
    if NonZeroEqual(vals) { ZerosFirstAccepted(vals); }
    forall p | Reorders(p, vals) && Accepted(p) ensures NonZeroEqual(vals) { AcceptedReorder(p, vals); }
  }

  lemma {:induction false} EqualAccepted(p: seq<int>, vals: seq<int>)
    requires Reorders(p, vals) && AllEqual(vals)
    ensures Accepted(p)
  {
    SameElements(p, vals);
    forall j, k | 0 <= j < |p| && 0 <= k < |p| ensures p[j] == p[k] {
      var x, y := p[j], p[k];
      assert x in p && y in p;
      assert x in vals && y in vals;
    }
    assert ZerosThen(p, if p != [] && p[0] != 0 then 0 else |p|);
  }

  /** A zero next to another value is rejected in some order. */
  lemma {:induction false} ZerosLastRejected(vals: seq<int>, j: nat, k: nat)
    requires j < |vals| && k < |vals| && vals[j] == 0 && vals[k] != 0
    ensures Reorders(Select(vals, false) + Select(vals, true), vals)
    ensures !Accepted(Select(vals, false) + Select(vals, true))
  {
    var a, b := Select(vals, true), Select(vals, false);
    var p := b + a;
    SelectOrders(vals);
    SameElements(p, vals);
    assert vals[j] in p && vals[k] in p;
    assert a != [] && b != [];
    assert p[0] == b[0] && p[|b|] == a[0];
    RejectedAt(p, 0, |b|);
  }

  /** The map is accepted in every order exactly if all its values agree. */
  lemma {:induction false} EveryOrderAccepts(vals: seq<int>)
    ensures (forall p | Reorders(p, vals) :: Accepted(p)) <==> AllEqual(vals)
  {
    if AllEqual(vals) {
      forall p | Reorders(p, vals) ensures Accepted(p) { EqualAccepted(p, vals); }
    } else {
      var j, k :| 0 <= j < |vals| && 0 <= k < |vals| && vals[j] != vals[k];
      if vals[j] == 0 {
        ZerosLastRejected(vals, j, k);
      } else if vals[k] == 0 {
        ZerosLastRejected(vals, k, j);
      } else {
        assert Reorders(vals, vals);
        if Accepted(vals) { AcceptedIsNonZeroEqual(vals); }
      }
    }
  }

  // ---- one poll of the members --------------------------------------------------------------

  datatype Reply = Reply(revision: int, hash: int)

  /** The members' names, and their answers in the order in which the callbacks store them. */
  datatype Poll = Poll(names: seq<string>, replies: seq<Option<Reply>>)

  predicate WellFormed(p: Poll) { |p.names| == |p.replies| }

  predicate UniqueMembers(p: Poll) { forall i, j | 0 <= i < j < |p.names| :: p.names[i] != p.names[j] }

  /** The names of the first `n` members that reported. */
  function Reported(p: Poll, n: nat): set<string>
    requires WellFormed(p) && n <= |p.names|
  {
    set i | 0 <= i < n && p.replies[i].Some? :: p.names[i]
  }

  /** Among the first `n` members, `i` is the last of its name to report; members that have not started
      all have the empty name. */
  predicate IsLast(p: Poll, n: nat, i: nat)
    requires WellFormed(p) && n <= |p.names|
  {
    i < n && p.replies[i].Some? && forall j | i < j < n && p.replies[j].Some? :: p.names[j] != p.names[i]
  }

  lemma {:induction false} LastExists(p: Poll, n: nat, name: string) returns (i: nat)
    requires WellFormed(p) && n <= |p.names| && name in Reported(p, n)
    ensures IsLast(p, n, i) && p.names[i] == name
  {
    if p.replies[n - 1].Some? && p.names[n - 1] == name {
      i := n - 1;
    } else {
      i := LastExists(p, n - 1, name);
    }
  }

  /** `revs` and `hashes` hold what the last of each name among the first `n` members reported, and nothing else. */
  predicate Collected(p: Poll, n: nat, revs: map<string, int>, hashes: map<string, int>)
    requires WellFormed(p) && n <= |p.names|
  {
    revs.Keys == hashes.Keys == Reported(p, n) && forall i | 0 <= i < n && IsLast(p, n, i) :: Entered(p, i, revs, hashes)
  }

  predicate Entered(p: Poll, i: nat, revs: map<string, int>, hashes: map<string, int>)
    requires WellFormed(p) && i < |p.names| && p.replies[i].Some?
  {
    && p.names[i] in revs && revs[p.names[i]] == p.replies[i].value.revision
    && p.names[i] in hashes && hashes[p.names[i]] == p.replies[i].value.hash
  }

  lemma {:induction false} LastNext(p: Poll, n: nat, i: nat)
    requires WellFormed(p) && i < n < |p.names| && IsLast(p, n + 1, i)
    ensures IsLast(p, n, i) && (p.replies[n].Some? ==> p.names[n] != p.names[i])
  {
  }

  lemma {:induction false} NothingNew(p: Poll, n: nat, revs: map<string, int>, hashes: map<string, int>)
    requires WellFormed(p) && n < |p.names| && Collected(p, n, revs, hashes) && p.replies[n].None?
    ensures Collected(p, n + 1, revs, hashes)
  {
    assert Reported(p, n + 1) == Reported(p, n);
    forall i: nat | i < n + 1 && IsLast(p, n + 1, i) ensures Entered(p, i, revs, hashes) { LastNext(p, n, i); }
  }

  lemma {:induction false} OneMore(p: Poll, n: nat, revs: map<string, int>, hashes: map<string, int>)
    requires WellFormed(p) && n < |p.names| && Collected(p, n, revs, hashes) && p.replies[n].Some?
    ensures Collected(p, n + 1, revs[p.names[n] := p.replies[n].value.revision], hashes[p.names[n] := p.replies[n].value.hash])
  {
    assert Reported(p, n + 1) == Reported(p, n) + {p.names[n]};
    var rs, hs := revs[p.names[n] := p.replies[n].value.revision], hashes[p.names[n] := p.replies[n].value.hash];
    forall i: nat | i < n + 1 && IsLast(p, n + 1, i) ensures Entered(p, i, rs, hs) {
      if i < n {
        LastNext(p, n, i);
        assert Entered(p, i, revs, hashes);
      }
    }
  }

  /** ForEachMember returns nil exactly if every callback succeeded. */
  method GetRevisionsHashes(p: Poll) returns (revs: map<string, int>, hashes: map<string, int>, ok: bool)
    requires WellFormed(p)
    ensures ok <==> forall i | 0 <= i < |p.replies| :: p.replies[i].Some?
    ensures Collected(p, |p.names|, revs, hashes)
  {
    revs, hashes, ok := map[], map[], true;
    for i := 0 to |p.names|
      invariant ok <==> forall k | 0 <= k < i :: p.replies[k].Some?
      invariant Collected(p, i, revs, hashes)
    {
      match p.replies[i] {
        case None =>
          NothingNew(p, i, revs, hashes);
          ok := false;
        case Some(r) =>
          OneMore(p, i, revs, hashes);
          revs := revs[p.names[i] := r.revision];
          hashes := hashes[p.names[i] := r.hash];
      }
    }
  }

  /** `order` iterates over the values of `m`. */
  ghost predicate Iterates(m: map<string, int>, order: seq<int>) {
    forall x :: x in order <==> exists n :: n in m && m[n] == x
  }

  /** All members reported, with one revision and one hash. */
  predicate Agreement(p: Poll) {
    && (forall i | 0 <= i < |p.replies| :: p.replies[i].Some?)
    && (forall i, j | 0 <= i < |p.replies| && 0 <= j < |p.replies| :: p.replies[i] == p.replies[j])
  }

  /** All members reported, and the last ones of each name agree. */
  predicate NamesAgree(p: Poll)
    requires WellFormed(p)
  {
    && (forall i | 0 <= i < |p.replies| :: p.replies[i].Some?)
    && (forall i, j | 0 <= i < |p.replies| && 0 <= j < |p.replies| && IsLast(p, |p.names|, i) && IsLast(p, |p.names|, j) ::
          p.replies[i] == p.replies[j])
  }

  /** With unique names this is the agreement of all members. */
  lemma {:induction false} UniqueNamesAgree(p: Poll)
    requires WellFormed(p) && UniqueMembers(p)
    ensures NamesAgree(p) <==> Agreement(p)
  {
    forall i: nat | i < |p.names| && p.replies[i].Some? ensures IsLast(p, |p.names|, i) {}
  }

  /** Members of one name hide each other: only one of them is ever compared. */
  lemma {:induction false} OneNameHides(p: Poll, name: string)
    requires WellFormed(p) && forall i | 0 <= i < |p.replies| :: p.replies[i].Some? && p.names[i] == name
    ensures NamesAgree(p)
  {
    var n := |p.names|;
    forall i: nat | i < n - 1 ensures !IsLast(p, n, i) {
      assert p.replies[n - 1].Some? && p.names[n - 1] == p.names[i];
    }
  }

  predicate NonZero(p: Poll) {
    forall i | 0 <= i < |p.replies| && p.replies[i].Some? :: p.replies[i].value.revision != 0 && p.replies[i].value.hash != 0
  }

  lemma {:induction false} IterationAgrees(m: map<string, int>, order: seq<int>, a: string, b: string)
    requires Iterates(m, order) && Accepted(order) && a in m && b in m && m[a] != 0 && m[b] != 0
    ensures m[a] == m[b]
  {
    AcceptedIsNonZeroEqual(order);
    assert m[a] in order && m[b] in order;
  }

  /** IsConsistent's test of one poll. `ro` and `ho` are the iterations over revisions and hashes. */
  method Consistent(p: Poll, ro: seq<int>, ho: seq<int>, revs: map<string, int>, hashes: map<string, int>, ok: bool)
    returns (yes: bool)
    ensures yes <==> ok && Accepted(ro) && Accepted(ho)
  {
    if !ok { return false; }
    var r := GetSameValue(ro);
    if !r { return false; }
    yes := GetSameValue(ho);
  }

  /** A poll that passes is an agreement, if no revision and no hash is zero. */
  lemma {:induction false} PassedIsAgreement(p: Poll, revs: map<string, int>, hashes: map<string, int>,
                                             ro: seq<int>, ho: seq<int>)
    requires WellFormed(p) && NonZero(p) && Collected(p, |p.names|, revs, hashes)
    requires forall i | 0 <= i < |p.replies| :: p.replies[i].Some?
    requires Iterates(revs, ro) && Iterates(hashes, ho) && Accepted(ro) && Accepted(ho)
    ensures NamesAgree(p)
  {
    forall i: nat, j: nat | i < |p.replies| && j < |p.replies| && IsLast(p, |p.names|, i) && IsLast(p, |p.names|, j)
      ensures p.replies[i] == p.replies[j]
    {
      assert Entered(p, i, revs, hashes) && Entered(p, j, revs, hashes);
      IterationAgrees(revs, ro, p.names[i], p.names[j]);
      IterationAgrees(hashes, ho, p.names[i], p.names[j]);
    }
  }

  lemma {:induction false} SameValueAccepted(m: map<string, int>, order: seq<int>, v: int)
    requires Iterates(m, order) && forall n | n in m :: m[n] == v
    ensures Accepted(order)
  {
    forall k | 0 <= k < |order| ensures order[k] == v { assert order[k] in order; }
    EqualAccepted(order, order);
  }

  /** An agreement passes, in every order of iteration and also when the common value is zero. */
  lemma {:induction false} AgreementPasses(p: Poll, revs: map<string, int>, hashes: map<string, int>,
                                           ro: seq<int>, ho: seq<int>)
    requires WellFormed(p) && NamesAgree(p) && Collected(p, |p.names|, revs, hashes)
    requires Iterates(revs, ro) && Iterates(hashes, ho)
    ensures Accepted(ro) && Accepted(ho)
  {
    if p.replies == [] {
      assert revs.Keys == {} && hashes.Keys == {};
      SameValueAccepted(revs, ro, 0);
      SameValueAccepted(hashes, ho, 0);
    } else {
      var n := |p.names|;
      assert IsLast(p, n, n - 1);
      var r := p.replies[n - 1].value;
      forall name | name in Reported(p, n) ensures revs[name] == r.revision && hashes[name] == r.hash {
        var i := LastExists(p, n, name);
        assert Entered(p, i, revs, hashes);
      }
      forall name | name in revs ensures revs[name] == r.revision { assert name in Reported(p, n); }
      forall name | name in hashes ensures hashes[name] == r.hash { assert name in Reported(p, n); }
      SameValueAccepted(revs, ro, r.revision);
      SameValueAccepted(hashes, ho, r.hash);
    }
  }

  /** The polls of one call, and the iteration orders the runtime will choose in each. */
  datatype Attempt = Attempt(poll: Poll, revOrder: map<string, int> -> seq<int>, hashOrder: map<string, int> -> seq<int>)

  ghost predicate Fair(a: Attempt) {
    WellFormed(a.poll) && forall m :: Iterates(m, a.revOrder(m)) && Iterates(m, a.hashOrder(m))
  }

  ghost predicate Agrees(a: Attempt) { WellFormed(a.poll) && NamesAgree(a.poll) }

  /** One turn of IsConsistent's loop: an agreement passes, and what passes is one unless a zero was reported. */
  method Attempted(a: Attempt) returns (yes: bool)
    requires Fair(a)
    ensures Agrees(a) ==> yes
    ensures yes && NonZero(a.poll) ==> Agrees(a)
  {
    var p := a.poll;
    var revs, hashes, ok := GetRevisionsHashes(p);
    var ro, ho := a.revOrder(revs), a.hashOrder(hashes);
    yes := Consistent(p, ro, ho, revs, hashes, ok);
    if NamesAgree(p) { AgreementPasses(p, revs, hashes, ro, ho); }
    if yes && NonZero(p) { PassedIsAgreement(p, revs, hashes, ro, ho); }
  }

  /** Polls up to 15 times and stops at the first poll that passes (None is the inconsistency error). No
      agreement is passed over, and what passes is one unless a zero was reported; with unique names it is
      an agreement of all members. */
  method IsConsistent(attempts: seq<Attempt>) returns (passed: Option<nat>)
    requires |attempts| == ATTEMPTS && forall k | 0 <= k < ATTEMPTS :: Fair(attempts[k])
    ensures passed.Some? ==> passed.value < ATTEMPTS
    ensures passed.Some? && NonZero(attempts[passed.value].poll) ==> Agrees(attempts[passed.value])
    ensures passed.Some? && NonZero(attempts[passed.value].poll) && UniqueMembers(attempts[passed.value].poll) ==>
              Agreement(attempts[passed.value].poll)
    ensures forall k | 0 <= k < (if passed.Some? then passed.value else ATTEMPTS) :: !Agrees(attempts[k])
  {
    for i := 0 to ATTEMPTS
      invariant forall k | 0 <= k < i :: !Agrees(attempts[k])
    {
      assert Fair(attempts[i]);
      var yes := Attempted(attempts[i]);
      if yes {
        if UniqueMembers(attempts[i].poll) { UniqueNamesAgree(attempts[i].poll); }
        return Some(i);
      }
    }
    passed := None;
  }

  /** GetHighestRevision: -1 if some member failed, otherwise the highest revision among the last reports of
      each name, or 0 if none is positive. */
  method GetHighestRevision(p: Poll) returns (maxRev: int)
    requires WellFormed(p)
    ensures maxRev >= -1 && (maxRev == -1 <==> exists i :: 0 <= i < |p.replies| && p.replies[i].None?)
    ensures maxRev != -1 ==>
              forall i: nat | i < |p.replies| && IsLast(p, |p.names|, i) :: p.replies[i].value.revision <= maxRev
    ensures maxRev > 0 ==>
              exists i: nat :: i < |p.replies| && IsLast(p, |p.names|, i) && p.replies[i].value.revision == maxRev
  {
    var revs, hashes, ok := GetRevisionsHashes(p);
    if !ok { return -1; }
    maxRev := 0;
    var rest := revs.Items;
    while rest != {}
      invariant maxRev >= 0 && rest <= revs.Items
      invariant forall n | n in revs && (n, revs[n]) !in rest :: revs[n] <= maxRev
      invariant maxRev > 0 ==> exists n :: n in revs && revs[n] == maxRev
      decreases |rest|
    {
      var item :| item in rest;
      rest := rest - {item};
      assert item in revs.Items;
      if item.1 > maxRev { maxRev := item.1; }
    }
    forall i: nat | i < |p.replies| && IsLast(p, |p.names|, i) ensures p.replies[i].value.revision <= maxRev {
      assert Entered(p, i, revs, hashes);
      assert p.names[i] in revs && revs[p.names[i]] <= maxRev;
    }
    if maxRev > 0 {
      var n :| n in revs && revs[n] == maxRev;
      assert n in Reported(p, |p.names|);
      var i := LastExists(p, |p.names|, n);
      assert Entered(p, i, revs, hashes);
    }
  }
}
