/** The member cleaner: what runMemberCleaner remembers of the members it lists, and whom it removes. */
module Cleaner {
  import opened Clock
  import opened Wrappers

  const START_TIMEOUT: int := 1800 * 1_000_000_000

  datatype Tracked = Tracked(name: string, firstSeen: int, lastHealthy: Option<int>)

  /** One member of a listing, what the health probe found, and the clock when the member is registered
      and when it is marked as healthy. */
  datatype Entry = Entry(id: int, name: string, started: bool, reachable: bool, healthy: bool, now: int, later: int)

  datatype Answer = Removed | NotFound | DeadlineExceeded | OtherError

  /** How the attempt to remove a member ends: without a client, without the join lock, or with an answer. */
  datatype Removal = NoClient | NotLocked | Answered(answer: Answer)

  /** The clock at the two grace checks of a member, and how its removal would end. */
  datatype Check = Check(first: int, second: int, removal: Removal)

  /** One turn of the loop. `start`, `listed` and `finish` bound the clock readings. */
  datatype Tick = Tick(listing: seq<Entry>, check: int -> Check, start: int, listed: int, finish: int)

  type Members = map<int, Tracked>

  predicate ProbedHealthy(e: Entry) { e.started && e.reachable && e.healthy }

  function ObserveOne(m: Members, e: Entry): Members {
    if !e.started then m
    else
      var t := if e.id in m then m[e.id] else Tracked(e.name, e.now, None);
      m[e.id := if ProbedHealthy(e) then t.(lastHealthy := Some(e.later)) else t]
  }

  function Observe(m: Members, l: seq<Entry>): Members {
    if l == [] then m else ObserveOne(Observe(m, l[..|l| - 1]), l[|l| - 1])
  }

  /** The two grace periods are over. */
  predicate Due(t: Tracked, c: Check, ttl: int) {
    && !(Since(c.first, Some(t.firstSeen)) < START_TIMEOUT && t.lastHealthy.None?)
    && !(Since(c.second, t.lastHealthy) < ttl)
  }

  /** RemoveMember reports no error: a member that is already gone counts as removed. */
  predicate Succeeds(r: Removal) { r == Answered(Removed) || r == Answered(NotFound) }

  function Sweep(m: Members, check: int -> Check, ttl: int): Members {
    map id | id in m && !(Due(m[id], check(id), ttl) && Succeeds(check(id).removal)) :: m[id]
  }

  /** The calls of RemoveMember: which id, under which name. */
  function Calls(m: Members, check: int -> Check, ttl: int): map<int, string> {
    map id | id in m && Due(m[id], check(id), ttl) && check(id).removal != NoClient :: m[id].name
  }

  function Next(m: Members, t: Tick, ttl: int): Members { Sweep(Observe(m, t.listing), t.check, ttl) }

  /** The tracking map after `n` turns. */
  function After(ticks: seq<Tick>, ttl: int, n: nat): Members
    requires n <= |ticks|
  {
    if n == 0 then map[] else Next(After(ticks, ttl, n - 1), ticks[n - 1], ttl)
  }

  /** A sweep has not come to this member yet. */
  predicate Waiting(was: Members, m: Members, calls: map<int, string>, item: (int, Tracked)) {
    item.0 in was && item.0 in m && m[item.0] == was[item.0] == item.1 && item.0 !in calls
  }

  /** A sweep is done with this member. */
  predicate Handled(was: Members, m: Members, calls: map<int, string>, check: int -> Check, ttl: int, id: int)
    requires id in was
  {
    var due := Due(was[id], check(id), ttl);
    && (id in m <==> !(due && Succeeds(check(id).removal))) && (id in m ==> m[id] == was[id])
    && (id in calls <==> due && check(id).removal != NoClient) && (id in calls ==> calls[id] == was[id].name)
  }

  lemma {:induction false} AllHandled(was: Members, m: Members, calls: map<int, string>, check: int -> Check, ttl: int)
    requires m.Keys <= was.Keys && calls.Keys <= was.Keys
    requires forall id | id in was :: Handled(was, m, calls, check, ttl, id)
    ensures m == Sweep(was, check, ttl) && calls == Calls(was, check, ttl)
  {
    var sweep, named := Sweep(was, check, ttl), Calls(was, check, ttl);
    forall id ensures (id in m <==> id in sweep) && (id in m ==> m[id] == sweep[id]) {
      assert id in m ==> id in m.Keys;
      assert id in was ==> Handled(was, m, calls, check, ttl, id);
    }
    assert m == sweep;
    forall id ensures (id in calls <==> id in named) && (id in calls ==> calls[id] == named[id]) {
      assert id in calls ==> id in calls.Keys;
      assert id in was ==> Handled(was, m, calls, check, ttl, id);
    }
    assert calls == named;
  }

  class MemberCleaner {
    const ttl: int
    var members: Members

    constructor (ttl: int)
      ensures this.ttl == ttl && members == map[]
    {
      this.ttl := ttl;
      members := map[];
    }

    method ObserveAll(listing: seq<Entry>)
      modifies this
      ensures members == Observe(old(members), listing)
    {
      for k := 0 to |listing|
        invariant members == Observe(old(members), listing[..k])
      {
        var e := listing[k];
        assert listing[..k + 1][..k] == listing[..k];
        if !e.started { continue; }
        if e.id !in members {
          members := members[e.id := Tracked(e.name, e.now, None)];
        }
        if e.reachable {
          if e.healthy {
            members := members[e.id := members[e.id].(lastHealthy := Some(e.later))];
          }
        }
      }
      assert listing[..|listing|] == listing;
    }

    /** The grace checks and the removal of one member. */
    method SweepOne(id: int, c: Check) returns (called: bool)
      requires id in members
      modifies this
      ensures called <==> Due(old(members)[id], c, ttl) && c.removal != NoClient
      ensures members == if Due(old(members)[id], c, ttl) && Succeeds(c.removal) then old(members) - {id} else old(members)
      ensures Due(old(members)[id], c, ttl) ==> (id !in members <==> c.removal in {Answered(Removed), Answered(NotFound)})
    {
      var member := members[id];
      if Since(c.first, Some(member.firstSeen)) < START_TIMEOUT && member.lastHealthy.None? { return false; }
      if Since(c.second, member.lastHealthy) < ttl { return false; }
      if c.removal == NoClient { return false; }
      if !Succeeds(c.removal) { return true; }
      members := members - {id};
      called := true;
    }

    /** Visits the members in any order, dropping some on the way. */
    method SweepAll(check: int -> Check) returns (calls: map<int, string>)
      modifies this
      ensures members == Sweep(old(members), check, ttl)
      ensures calls == Calls(old(members), check, ttl)
      ensures members.Keys <= old(members).Keys && forall id | id in members :: members[id] == old(members)[id]
      ensures forall id | id in old(members) && !Due(old(members)[id], check(id), ttl) :: id in members && id !in calls
      ensures forall id | id in old(members) && Due(old(members)[id], check(id), ttl) ::
                && (id in members <==> check(id).removal !in {Answered(Removed), Answered(NotFound)})
                && (id in calls <==> check(id).removal != NoClient)
    {
      calls := map[];
      ghost var was := members;
      var rest := members.Items;
      while rest != {}
        invariant members.Keys <= was.Keys && calls.Keys <= was.Keys
        invariant forall item | item in rest :: Waiting(was, members, calls, item)
        invariant forall id | id in was && (id, was[id]) !in rest :: Handled(was, members, calls, check, ttl, id)
        decreases |rest|
      {
        var item :| item in rest;
        assert Waiting(was, members, calls, item);
        var called := SweepOne(item.0, check(item.0));
        if called { calls := calls[item.0 := item.1.name]; }
        rest := rest - {item};
        assert Handled(was, members, calls, check, ttl, item.0);
      }
      AllHandled(was, members, calls, check, ttl);
    }

    method Turn(t: Tick) returns (calls: map<int, string>)
      modifies this
      ensures members == Next(old(members), t, ttl)
      ensures calls == Calls(Observe(old(members), t.listing), t.check, ttl)
    {
      ObserveAll(t.listing);
      calls := SweepAll(t.check);
    }
  }

  // ---- what is tracked ------------------------------------------------------------------------

  predicate StartedAs(e: Entry, id: int) { e.id == id && e.started }
  predicate HealthyAs(e: Entry, id: int) { e.id == id && e.started && e.reachable && e.healthy }

  ghost predicate Listed(l: seq<Entry>, id: int) { exists k: nat :: 0 <= k < |l| && StartedAs(l[k], id) }

  /** `k` is where the listing first shows the member as started. */
  predicate FirstIn(l: seq<Entry>, id: int, k: nat) {
    k < |l| && StartedAs(l[k], id) && forall j | 0 <= j < k :: !StartedAs(l[j], id)
  }

  /** `k` is where the listing last shows the member as healthy. */
  predicate LastHealthyIn(l: seq<Entry>, id: int, k: nat) {
    k < |l| && HealthyAs(l[k], id) && forall j | k < j < |l| :: !HealthyAs(l[j], id)
  }

  predicate NeverHealthyIn(l: seq<Entry>, id: int) { forall j | 0 <= j < |l| :: !HealthyAs(l[j], id) }

  lemma {:induction false} ObserveListed(m: Members, l: seq<Entry>, id: int)
    ensures id in Observe(m, l) <==> id in m || Listed(l, id)
    ensures id in m ==> Observe(m, l)[id].name == m[id].name && Observe(m, l)[id].firstSeen == m[id].firstSeen
    ensures id !in m && Listed(l, id) ==>
              exists k: nat :: FirstIn(l, id, k) && Observe(m, l)[id].name == l[k].name && Observe(m, l)[id].firstSeen == l[k].now
  {
    if l != [] {
      var n := |l| - 1;
      ObserveListed(m, l[..n], id);
      if id !in m && Listed(l[..n], id) {
        var k: nat :| FirstIn(l[..n], id, k) && Observe(m, l[..n])[id].name == l[k].name && Observe(m, l[..n])[id].firstSeen == l[k].now;
        assert FirstIn(l, id, k);
      } else if id !in m && StartedAs(l[n], id) {
        assert FirstIn(l, id, n);
      }
    }
  }

  lemma {:induction false} ObserveHealthy(m: Members, l: seq<Entry>, id: int)
    requires id in Observe(m, l)
    ensures NeverHealthyIn(l, id) ==> Observe(m, l)[id].lastHealthy == if id in m then m[id].lastHealthy else None
    ensures forall k: nat | LastHealthyIn(l, id, k) :: Observe(m, l)[id].lastHealthy == Some(l[k].later)
  {
    if l != [] && !HealthyAs(l[|l| - 1], id) && id in Observe(m, l[..|l| - 1]) {
      var front := l[..|l| - 1];
      ObserveHealthy(m, front, id);
      forall k: nat | LastHealthyIn(l, id, k) ensures LastHealthyIn(front, id, k) {}
    } else if l != [] && !HealthyAs(l[|l| - 1], id) {
      ObserveListed(m, l[..|l| - 1], id);
    }
  }

  /** The members as the sweep of turn `n` finds them. */
  function AtSweep(ticks: seq<Tick>, ttl: int, n: nat): Members
    requires n < |ticks|
  {
    Observe(After(ticks, ttl, n), ticks[n].listing)
  }

  /** The sweep of turn `n` finds the member, tracked since turn `m`, in which it was listed as started. */
  ghost predicate TrackedSince(ticks: seq<Tick>, ttl: int, id: int, m: nat, n: nat)
    requires n < |ticks|
  {
    && m <= n && id !in After(ticks, ttl, m) && Listed(ticks[m].listing, id)
    && forall j: nat | m < j <= n :: id in After(ticks, ttl, j)
  }

  /** Every tracked id was a started member in this turn or an earlier one. */
  lemma {:induction false} TrackedWasStarted(ticks: seq<Tick>, ttl: int, id: int, n: nat) returns (m: nat)
    requires n < |ticks| && id in AtSweep(ticks, ttl, n)
    ensures TrackedSince(ticks, ttl, id, m, n)
  {
    ObserveListed(After(ticks, ttl, n), ticks[n].listing, id);
    if id in After(ticks, ttl, n) {
      m := TrackedWasStarted(ticks, ttl, id, n - 1);
    } else {
      m := n;
    }
  }

  /** `h` is the last reading at which turns m to n-1 saw the member healthy, None if they never did. */
  ghost predicate LastReading(ticks: seq<Tick>, id: int, m: nat, n: nat, h: Option<int>)
    requires n <= |ticks|
  {
    if h.None? then forall j | m <= j < n :: NeverHealthyIn(ticks[j].listing, id)
    else exists j: nat, k: nat :: m <= j < n && ReadingAt(ticks, id, n, h.value, j, k)
  }

  predicate ReadingAt(ticks: seq<Tick>, id: int, n: nat, h: int, j: nat, k: nat)
    requires n <= |ticks|
  {
    && j < n && LastHealthyIn(ticks[j].listing, id, k) && ticks[j].listing[k].later == h
    && forall i | j < i < n :: NeverHealthyIn(ticks[i].listing, id)
  }

  /** The record of a member is its history since it is tracked: the name and the time of its first
      listing, and the time of the latest healthy probe. */
  lemma {:induction false} RecordIsHistory(ticks: seq<Tick>, ttl: int, id: int, m: nat, n: nat)
    requires n < |ticks| && TrackedSince(ticks, ttl, id, m, n)
    ensures id in AtSweep(ticks, ttl, n)
    ensures exists k: nat :: && FirstIn(ticks[m].listing, id, k) && AtSweep(ticks, ttl, n)[id].name == ticks[m].listing[k].name
                             && AtSweep(ticks, ttl, n)[id].firstSeen == ticks[m].listing[k].now
    ensures LastReading(ticks, id, m, n + 1, AtSweep(ticks, ttl, n)[id].lastHealthy)
  {
    ObserveListed(After(ticks, ttl, n), ticks[n].listing, id);
    if m < n {
      RecordIsHistory(ticks, ttl, id, m, n - 1);
      assert id in After(ticks, ttl, n) && After(ticks, ttl, n)[id] == AtSweep(ticks, ttl, n - 1)[id];
    }
    ReadingStep(ticks, ttl, id, m, n);
  }

  lemma {:induction false} ReadingStep(ticks: seq<Tick>, ttl: int, id: int, m: nat, n: nat)
    requires m <= n < |ticks| && id in AtSweep(ticks, ttl, n)
    requires m == n ==> id !in After(ticks, ttl, n)
    requires m < n ==> id in After(ticks, ttl, n) && LastReading(ticks, id, m, n, After(ticks, ttl, n)[id].lastHealthy)
    ensures LastReading(ticks, id, m, n + 1, AtSweep(ticks, ttl, n)[id].lastHealthy)
  {
    var before, l, h := After(ticks, ttl, n), ticks[n].listing, AtSweep(ticks, ttl, n)[id].lastHealthy;
    ObserveHealthy(before, l, id);
    if NeverHealthyIn(l, id) {
      if h.Some? {
        assert m < n;
        var j: nat, k: nat :| m <= j < n && ReadingAt(ticks, id, n, h.value, j, k);
        assert ReadingAt(ticks, id, n + 1, h.value, j, k);
      }
    } else {
      var k := LastHealthyExists(l, id);
      assert ReadingAt(ticks, id, n + 1, h.value, n, k);
    }
  }

  lemma {:induction false} LastHealthyExists(l: seq<Entry>, id: int) returns (k: nat)
    requires !NeverHealthyIn(l, id)
    ensures LastHealthyIn(l, id, k)
  {
    var n := |l| - 1;
    if HealthyAs(l[n], id) {
      k := n;
    } else {
      k := LastHealthyExists(l[..n], id);
    }
  }

  // ---- safety ------------------------------------------------------------------------------------

  predicate SortedReadings(l: seq<Entry>) {
    forall j, k | 0 <= j < k < |l| :: l[j].later <= l[k].now
  }

  /** The clock does not run backwards within a turn. */
  ghost predicate WellTimed(t: Tick) {
    && (forall k | 0 <= k < |t.listing| :: t.start <= t.listing[k].now <= t.listing[k].later <= t.listed)
    && SortedReadings(t.listing)
    && (forall id :: t.start <= t.listed <= t.check(id).first <= t.check(id).second <= t.finish)
  }

  /** The clock does not run backwards. */
  ghost predicate Ordered(ticks: seq<Tick>) {
    && (forall n | 0 <= n < |ticks| :: WellTimed(ticks[n]))
    && (forall m, n | 0 <= m < n < |ticks| :: ticks[m].finish <= ticks[n].start)
  }

  /** A healthy reading `h` is on record, or was forgotten once it was older than `ttl`; nothing on record
      is newer than `now`. */
  predicate Covered(m: Members, id: int, h: int, ttl: int, now: int) {
    || h + ttl <= now
    || (id in m && m[id].lastHealthy.Some? && h <= m[id].lastHealthy.value <= now)
  }

  lemma {:induction false} ObserveCovers(m: Members, l: seq<Entry>, id: int, h: int, ttl: int, start: int, listed: int)
    requires SortedReadings(l) && start <= listed
    requires forall k | 0 <= k < |l| :: start <= l[k].now <= l[k].later <= listed
    requires Covered(m, id, h, ttl, start) || exists k: nat :: 0 <= k < |l| && HealthyAs(l[k], id) && h == l[k].later
    ensures Covered(Observe(m, l), id, h, ttl, listed)
  {
    if l != [] && !(HealthyAs(l[|l| - 1], id) && h == l[|l| - 1].later) {
      var n := |l| - 1;
      var front, last := l[..n], l[n];
      if !Covered(m, id, h, ttl, start) {
        var k :| 0 <= k < |l| && HealthyAs(l[k], id) && h == l[k].later;
        assert HealthyAs(front[k], id) && h == front[k].later;
      }
      ObserveCovers(m, front, id, h, ttl, start, if n == 0 then start else if front[n - 1].later < start then start else front[n - 1].later);
    }
  }

  lemma {:induction false} SweepCovers(m: Members, id: int, h: int, ttl: int, t: Tick)
    requires WellTimed(t) && IsDuration(ttl)
    requires Covered(m, id, h, ttl, t.listed)
    ensures Covered(Sweep(m, t.check, ttl), id, h, ttl, t.finish)
  {
    assert t.listed <= t.check(id).first <= t.check(id).second <= t.finish;
  }

  /** Everything seen healthy in the first `n` turns is covered at the end of them. */
  lemma {:induction false} HealthyIsCovered(ticks: seq<Tick>, ttl: int, id: int, n: nat, j: nat, k: nat, now: int)
    requires Ordered(ticks) && IsDuration(ttl)
    requires j < n <= |ticks| && k < |ticks[j].listing| && HealthyAs(ticks[j].listing[k], id)
    requires ticks[n - 1].finish <= now
    ensures Covered(After(ticks, ttl, n), id, ticks[j].listing[k].later, ttl, now)
  {
    var t, h := ticks[n - 1], ticks[j].listing[k].later;
    assert WellTimed(t) && t.listed <= t.check(id).first;
    if j < n - 1 {
      HealthyIsCovered(ticks, ttl, id, n - 1, j, k, t.start);
    }
    ObserveCovers(After(ticks, ttl, n - 1), t.listing, id, h, ttl, t.start, t.listed);
    SweepCovers(Observe(After(ticks, ttl, n - 1), t.listing), id, h, ttl, t);
  }

  /** Turn `n` tries to remove the member. */
  predicate Attempts(ticks: seq<Tick>, ttl: int, id: int, n: nat)
    requires n < |ticks|
  {
    id in AtSweep(ticks, ttl, n) && Due(AtSweep(ticks, ttl, n)[id], ticks[n].check(id), ttl)
  }

  /** A member is only ever removed when every time it was seen healthy, in the whole run, is at least `ttl` ago. */
  lemma {:induction false} RemovedOnlyWhenUnhealthy(ticks: seq<Tick>, ttl: int, id: int, n: nat, j: nat, k: nat)
    requires Ordered(ticks) && IsDuration(ttl) && n < |ticks| && Attempts(ticks, ttl, id, n)
    requires j <= n && k < |ticks[j].listing| && HealthyAs(ticks[j].listing[k], id)
    ensures ticks[n].check(id).second - ticks[j].listing[k].later >= ttl
  {
    var t, h := ticks[n], ticks[j].listing[k].later;
    assert WellTimed(t) && t.listed <= t.check(id).first <= t.check(id).second;
    if j < n { HealthyIsCovered(ticks, ttl, id, n, j, k, t.start); }
    ObserveCovers(After(ticks, ttl, n), t.listing, id, h, ttl, t.start, t.listed);
  }

  /** When a member tracked since turn `m` is due, in terms of the run alone: never seen healthy since, the
      start timeout must have passed since it was first listed; otherwise `ttl` since it was last seen healthy. */
  lemma {:induction false} AttemptedExactly(ticks: seq<Tick>, ttl: int, id: int, m: nat, n: nat)
    returns (k: nat, h: Option<int>)
    requires Ordered(ticks) && IsDuration(ttl)
    requires n < |ticks| && TrackedSince(ticks, ttl, id, m, n)
    ensures FirstIn(ticks[m].listing, id, k) && LastReading(ticks, id, m, n + 1, h)
    ensures Attempts(ticks, ttl, id, n) <==>
              if h.None? then ticks[n].check(id).first - ticks[m].listing[k].now >= START_TIMEOUT
              else ticks[n].check(id).second - h.value >= ttl
  {
    RecordIsHistory(ticks, ttl, id, m, n);
    h := AtSweep(ticks, ttl, n)[id].lastHealthy;
    k :| FirstIn(ticks[m].listing, id, k) && AtSweep(ticks, ttl, n)[id].firstSeen == ticks[m].listing[k].now;
    NotInTheFuture(ticks, id, m, n, k);
    if h.Some? {
      var j: nat, i: nat :| m <= j < n + 1 && ReadingAt(ticks, id, n + 1, h.value, j, i);
      NotInTheFuture(ticks, id, j, n, i);
    }
  }

  lemma {:induction false} NotInTheFuture(ticks: seq<Tick>, id: int, m: nat, n: nat, k: nat)
    requires Ordered(ticks) && m <= n < |ticks| && k < |ticks[m].listing|
    ensures ticks[m].listing[k].now <= ticks[m].listing[k].later <= ticks[n].check(id).first <= ticks[n].check(id).second
  {
    assert WellTimed(ticks[m]) && WellTimed(ticks[n]);
    assert ticks[m].listed <= ticks[m].check(id).first <= ticks[m].finish;
    assert ticks[n].start <= ticks[n].listed <= ticks[n].check(id).first;
  }

  /** Seen healthy less than `ttl` before each sweep: never removed. */
  lemma {:induction false} HealthyStays(ticks: seq<Tick>, ttl: int, id: int)
    requires Ordered(ticks) && IsDuration(ttl)
    requires forall n | 0 <= n < |ticks| :: RecentlyHealthy(ticks, ttl, id, n)
    ensures forall n | 0 <= n < |ticks| :: !Attempts(ticks, ttl, id, n)
  {
    forall n | 0 <= n < |ticks| && Attempts(ticks, ttl, id, n) ensures false {
      assert RecentlyHealthy(ticks, ttl, id, n);
      var j: nat, k: nat :| j <= n && HealthyWithin(ticks, ttl, id, n, j, k);
      RemovedOnlyWhenUnhealthy(ticks, ttl, id, n, j, k);
    }
  }

  ghost predicate HealthyWithin(ticks: seq<Tick>, ttl: int, id: int, n: nat, j: nat, k: nat)
    requires n < |ticks| && j <= n
  {
    && k < |ticks[j].listing| && HealthyAs(ticks[j].listing[k], id)
    && ticks[n].check(id).second - ticks[j].listing[k].later < ttl
  }

  ghost predicate RecentlyHealthy(ticks: seq<Tick>, ttl: int, id: int, n: nat)
    requires n < |ticks|
  {
    exists j: nat, k: nat :: j <= n && HealthyWithin(ticks, ttl, id, n, j, k)
  }

  // ---- forgetting ----------------------------------------------------------------------------------

  predicate Forgets(t: Tracked, c: Check, ttl: int) { Due(t, c, ttl) && Succeeds(c.removal) }

  lemma {:induction false} UnlistedTurn(m: Members, t: Tick, ttl: int, id: int)
    requires !Listed(t.listing, id)
    ensures id in Next(m, t, ttl) <==> id in m && !Forgets(m[id], t.check(id), ttl)
    ensures id in Next(m, t, ttl) ==> Next(m, t, ttl)[id] == m[id]
  {
    ObserveListed(m, t.listing, id);
    if id in m {
      forall j | 0 <= j < |t.listing| ensures !HealthyAs(t.listing[j], id) { assert !StartedAs(t.listing[j], id); }
      ObserveHealthy(m, t.listing, id);
      assert Observe(m, t.listing)[id] == m[id];
    }
  }

  /** While a member is not listed it is forgotten exactly at the first sweep after both grace periods
      whose removal succeeds. */
  lemma {:induction false} ForgottenExactly(ticks: seq<Tick>, ttl: int, id: int, m: nat, n: nat)
    requires m <= n <= |ticks| && id in After(ticks, ttl, m)
    requires forall j | m <= j < n :: !Listed(ticks[j].listing, id)
    ensures id in After(ticks, ttl, n) <==> forall j | m <= j < n :: !Forgets(After(ticks, ttl, m)[id], ticks[j].check(id), ttl)
    ensures id in After(ticks, ttl, n) ==> After(ticks, ttl, n)[id] == After(ticks, ttl, m)[id]
  {
    if m < n {
      ForgottenExactly(ticks, ttl, id, m, n - 1);
      UnlistedTurn(After(ticks, ttl, n - 1), ticks[n - 1], ttl, id);
    }
  }
}
