/**
 * applyACLConfig, removeACLConfig and reconcileInitACLConfig as they are carried out, call by call, on a
 * store that becomes unreachable after a number of mutations.
 */
module AclClient {
  import opened Wrappers
  import opened Acl
  import opened AclReconcile

  datatype Reply = Ok | NotFound | Failed

  datatype Progress = Progress(store: Store, budget: nat, ok: bool)

  /** One operation when `b` more mutations can get through. */
  function Call(op: Op, st: Store, b: nat): Progress {
    match Step(op, st)
    case None => Progress(st, b, false)
    case Some(t) => if t == st then Progress(st, b, true) else if b == 0 then Progress(st, b, false) else Progress(t, b - 1, true)
  }

  function Calls(ops: seq<Op>, st: Store, b: nat): Progress
    decreases |ops|
  {
    if ops == [] then Progress(st, b, true)
    else
      var p := Call(ops[0], st, b);
      if p.ok then Calls(ops[1..], p.store, p.budget) else p
  }

  /** Running out is a cut: the store is the one after some prefix of the operations, and a complete
      run is a run of all of them. */
  lemma {:induction false} CallsAreCut(ops: seq<Op>, st: Store, b: nat) returns (k: nat)
    ensures k <= |ops| && Calls(ops, st, b).store == After(ops, k, st)
    ensures Calls(ops, st, b).ok ==> k == |ops| && Run(ops, st) == Outcome(Calls(ops, st, b).store, true)
    decreases |ops|
  {
    if ops == [] {
      k := 0;
    } else {
      var p := Call(ops[0], st, b);
      if p.ok {
        var j := CallsAreCut(ops[1..], p.store, p.budget);
        k := j + 1;
        assert ops[..k] == [ops[0]] + ops[1..][..j];
        RunOne(ops[0], ops[1..][..j], st);
      } else {
        k := 0;
        assert ops[..0] == [];
      }
    }
  }

  lemma {:induction false} CallsConcat(a: seq<Op>, b: seq<Op>, st: Store, n: nat)
    ensures var p := Calls(a, st, n);
            Calls(a + b, st, n) == if p.ok then Calls(b, p.store, p.budget) else p
    decreases |a|
  {
    if a == [] {
      assert a + b == b;
    } else {
      assert (a + b)[1..] == a[1..] + b;
      var p := Call(a[0], st, n);
      if p.ok { CallsConcat(a[1..], b, p.store, p.budget); }
    }
  }

  lemma {:induction false} CallsTwo(x: Op, y: Op, st: Store, n: nat)
    ensures var p := Call(x, st, n);
            Calls([x, y], st, n) == if p.ok then Call(y, p.store, p.budget) else p
  {
    var p := Call(x, st, n);
    assert [x, y][1..] == [y] && [y][1..] == [];
    if p.ok {
      var q := Call(y, p.store, p.budget);
      assert Calls([y], p.store, p.budget) == if q.ok then Calls([], q.store, q.budget) else q;
    }
  }

  // What calls without an error achieve.

  lemma {:induction false} RoleCalls(role: Role, end: PrefixEnd, st: Store, b: nat)
    ensures var p := Calls(RoleOps(role, end), st, b);
            p.ok ==> role.name in p.store.roles && GrantsAre(p.store.roles[role.name], role.permissions, end)
  {
    var _ := CallsAreCut(RoleOps(role, end), st, b);
    if Calls(RoleOps(role, end), st, b).ok { RoleApplied(role, end, st); }
  }

  lemma {:induction false} UserCalls(user: User, st: Store, b: nat)
    ensures var p := Calls(UserOps(user), st, b);
            p.ok ==> user.name in p.store.users && AccountIs(p.store.users[user.name], user)
  {
    var _ := CallsAreCut(UserOps(user), st, b);
    if Calls(UserOps(user), st, b).ok { UserApplied(user, st); }
  }

  lemma {:induction false} ConfigCalls(config: ACLConfig, end: PrefixEnd, st: Store, b: nat)
    requires RootReady(st) && Valid(config)
    ensures var p := Calls(ApplyOps(config, end), st, b);
            p.ok ==> Configured(p.store, config, end)
  {
    var _ := CallsAreCut(ApplyOps(config, end), st, b);
    if Calls(ApplyOps(config, end), st, b).ok { ConfigApplied(config, end, st); }
  }

  class Client {
    const end: PrefixEnd
    var store: Store
    var budget: nat

    constructor (end: PrefixEnd, store: Store, budget: nat)
      ensures this.end == end && this.store == store && this.budget == budget
    {
      this.end, this.store, this.budget := end, store, budget;
    }

    ghost function Now(ok: bool): Progress
      reads this
    {
      Progress(store, budget, ok)
    }

    /** A call to etcd: refused, without effect, lost, or carried out. */
    method Send(op: Op) returns (ok: bool)
      modifies this
      ensures Now(ok) == Call(op, old(store), old(budget))
    {
      var t := Step(op, store);
      if t.None? { return false; }
      if t.value != store {
        if budget == 0 { return false; }
        store, budget := t.value, budget - 1;
      }
      ok := true;
    }

    /** The code takes every error, also a refusal, as "not found". */
    method RoleGet(name: string) returns (found: bool)
      ensures found <==> Authorized(store) && name in store.roles
    {
      found := Authorized(store) && name in store.roles;
    }

    method UserGet(name: string) returns (found: bool)
      ensures found <==> Authorized(store) && name in store.users
    {
      found := Authorized(store) && name in store.users;
    }

    method RoleDelete(name: string) returns (r: Reply)
      modifies this
      ensures r.NotFound? <==> Authorized(old(store)) && name !in old(store.roles)
      ensures Now(!r.Failed?) == Call(DropRole(name), old(store), old(budget))
    {
      if Authorized(store) && name !in store.roles { return NotFound; }
      var ok := Send(DropRole(name));
      r := if ok then Ok else Failed;
    }

    method UserDelete(name: string) returns (r: Reply)
      modifies this
      ensures r.NotFound? <==> Authorized(old(store)) && name !in old(store.users)
      ensures Now(!r.Failed?) == Call(DropUser(name), old(store), old(budget))
    {
      if Authorized(store) && name !in store.users { return NotFound; }
      var ok := Send(DropUser(name));
      r := if ok then Ok else Failed;
    }

    method ApplyRole(role: Role) returns (ok: bool)
      modifies this
      ensures Now(ok) == Calls(RoleOps(role, end), old(store), old(budget))
      ensures ok ==> role.name in store.roles && GrantsAre(store.roles[role.name], role.permissions, end)
    {
      ghost var perms := PermissionOps(role.name, role.permissions, end);
      CallsConcat([DropRole(role.name), AddRole(role.name)], perms, store, budget);
      CallsTwo(DropRole(role.name), AddRole(role.name), store, budget);
      var found := RoleGet(role.name);
      if found {
        var deleted := RoleDelete(role.name);
        if deleted != Ok { return false; }
      }
      var added := Send(AddRole(role.name));
      if !added { return false; }
      assert role.permissions[0..] == role.permissions;
      ghost var st, b := store, budget;
      for k := 0 to |role.permissions|
        invariant Calls(perms, st, b) == Calls(PermissionOps(role.name, role.permissions[k..], end), store, budget)
      {
        var perm := role.permissions[k];
        assert role.permissions[k..][1..] == role.permissions[k + 1..];
        CallsConcat([PermissionOp(role.name, perm, end)], PermissionOps(role.name, role.permissions[k + 1..], end), store, budget);
        var mode := ParseMode(perm.mode);
        if mode.None? { return false; }
        ok := Send(Grant(role.name, RangeOf(perm, end), mode.value));
        if !ok { return; }
      }
      ok := true;
      RoleCalls(role, end, old(store), old(budget));
    }

    method ApplyUser(user: User) returns (ok: bool)
      modifies this
      ensures Now(ok) == Calls(UserOps(user), old(store), old(budget))
      ensures ok ==> user.name in store.users && AccountIs(store.users[user.name], user)
    {
      ghost var grants := GrantRoleOps(user.name, user.roles);
      CallsConcat([DropUser(user.name), AddUser(user.name, Password(user))], grants, store, budget);
      CallsTwo(DropUser(user.name), AddUser(user.name, Password(user)), store, budget);
      var found := UserGet(user.name);
      if found {
        var deleted := UserDelete(user.name);
        if deleted != Ok { return false; }
      }
      var added := Send(AddUser(user.name, Password(user)));
      if !added { return false; }
      assert user.roles[0..] == user.roles;
      ghost var st, b := store, budget;
      for k := 0 to |user.roles|
        invariant Calls(grants, st, b) == Calls(GrantRoleOps(user.name, user.roles[k..]), store, budget)
      {
        assert user.roles[k..][1..] == user.roles[k + 1..];
        CallsConcat([GrantRole(user.name, user.roles[k])], GrantRoleOps(user.name, user.roles[k + 1..]), store, budget);
        ok := Send(GrantRole(user.name, user.roles[k]));
        if !ok { return; }
      }
      ok := true;
      UserCalls(user, old(store), old(budget));
    }

    method ApplyACLConfig(config: ACLConfig) returns (ok: bool)
      modifies this
      ensures Now(ok) == Calls(ApplyOps(config, end), old(store), old(budget))
      ensures ok && RootReady(old(store)) && Valid(config) ==> Configured(store, config, end)
    {
      var roles, users := config.roles, config.users;
      ghost var rs, us := RolesOps(roles, end), UsersOps(users);
      CallsConcat(rs + us, [PutConfig(config)], store, budget);
      CallsConcat(rs, us, store, budget);
      assert roles[0..] == roles && users[0..] == users;
      ghost var st, b := store, budget;
      for i := 0 to |roles|
        invariant Calls(rs, st, b) == Calls(RolesOps(roles[i..], end), store, budget)
      {
        assert roles[i..][1..] == roles[i + 1..];
        CallsConcat(RoleOps(roles[i], end), RolesOps(roles[i + 1..], end), store, budget);
        ok := ApplyRole(roles[i]);
        if !ok { return; }
      }
      ghost var st', b' := store, budget;
      for i := 0 to |users|
        invariant Calls(us, st', b') == Calls(UsersOps(users[i..]), store, budget)
      {
        assert users[i..][1..] == users[i + 1..];
        CallsConcat(UserOps(users[i]), UsersOps(users[i + 1..]), store, budget);
        ok := ApplyUser(users[i]);
        if !ok { return; }
      }
      ok := Send(PutConfig(config));
      if RootReady(old(store)) && Valid(config) { ConfigCalls(config, end, old(store), old(budget)); }
    }

    method RemoveACLConfig(config: ACLConfig) returns (ok: bool)
      modifies this
      ensures Now(ok) == Calls(RemoveOps(config), old(store), old(budget))
    {
      var roles, users := config.roles, config.users;
      ghost var rs, us := DropRolesOps(roles), DropUsersOps(users);
      CallsConcat(us + rs, [DeleteConfig], store, budget);
      CallsConcat(us, rs, store, budget);
      assert roles[0..] == roles && users[0..] == users;
      ghost var st, b := store, budget;
      for i := 0 to |users|
        invariant Calls(us, st, b) == Calls(DropUsersOps(users[i..]), store, budget)
      {
        assert users[i..][1..] == users[i + 1..];
        CallsConcat([DropUser(users[i].name)], DropUsersOps(users[i + 1..]), store, budget);
        var r := UserDelete(users[i].name);
        if r == Failed { return false; }
      }
      ghost var st', b' := store, budget;
      for i := 0 to |roles|
        invariant Calls(rs, st', b') == Calls(DropRolesOps(roles[i..]), store, budget)
      {
        assert roles[i..][1..] == roles[i + 1..];
        CallsConcat([DropRole(roles[i].name)], DropRolesOps(roles[i + 1..]), store, budget);
        var r := RoleDelete(roles[i].name);
        if r == Failed { return false; }
      }
      ok := Send(DeleteConfig);
    }

    /** The part of reconcileInitACLConfig that follows enableACL. */
    method MakeChanges(target: ACLConfig) returns (ok: bool)
      modifies this
      ensures Now(ok) == Calls(Changes(old(store), target, end), old(store), old(budget))
    {
      var recorded := store.config;
      ok := true;
      if recorded != Some(target) {
        if recorded.Some? {
          CallsConcat(RemoveOps(recorded.value), ApplyOps(target, end), store, budget);
          ok := RemoveACLConfig(recorded.value);
        } else {
          assert [] + ApplyOps(target, end) == ApplyOps(target, end);
        }
        if ok { ok := ApplyACLConfig(target); }
      }
    }

    /** reconcileInitACLConfig once authentication is enabled. If it reports success, or is called again
        with enough budget after having been cut, the store is the one that was wanted from the start. An
        operator without its account achieves nothing. */
    method Reconcile(target: ACLConfig) returns (ok: bool)
      modifies this
      ensures Now(ok) == Calls(ReconcileOps(old(store), target, end), old(store), old(budget))
      ensures RootReady(old(store)) && RecordedFree(old(store)) && Valid(target) && Deployable(target, old(store.self)) ==>
                && OnTheWay(store, old(store), target, end)
                && (ok ==> store == Final(old(store), target, end))
                && (ok && old(store).config != Some(target) ==> Configured(store, target, end))
      ensures !Authorized(old(store)) ==> !ok && store == old(store)
    {
      ghost var was, b, ops := store, budget, ReconcileOps(store, target, end);
      CallsConcat([Enter], Changes(store, target, end), store, budget);
      assert [Enter][1..] == [];
      assert Calls([Enter], store, budget) == Progress(store, budget, Authorized(store));
      ok := Send(Enter);
      if ok { ok := MakeChanges(target); }
      if RootReady(was) && RecordedFree(was) && Valid(target) && Deployable(target, was.self) {
        ghost var k := CallsAreCut(ops, was, b);
        CutSomewhere(was, target, end, k);
        ReconcileExact(was, target, end);
        if was.config != Some(target) { FinalEntries(was, target, end); }
      }
    }
  }
}
