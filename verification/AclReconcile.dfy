/** What reconciling an ACL configuration achieves, completely and when it is cut short. */
module AclReconcile {
  import opened Wrappers
  import opened Acl

  // ---- the store that is wanted ----------------------------------------------------------

  /** The grants of a role: the last permission for a key range wins. */
  function AddGrants(g: Grants, perms: seq<Permission>, end: PrefixEnd): Grants
    decreases |perms|
  {
    if perms == [] then g
    else
      match ParseMode(perms[0].mode)
      case None => AddGrants(g, perms[1..], end)
      case Some(m) => AddGrants(g[RangeOf(perms[0], end) := m], perms[1..], end)
  }

  function RoleMap(roles: seq<Role>, end: PrefixEnd): (m: map<string, Grants>)
    ensures m.Keys == RoleNames(roles)
  {
    if roles == [] then map[]
    else
      assert RoleNames(roles) == {roles[0].name} + RoleNames(roles[1..]) by { NamesFirst(roles); }
      map[roles[0].name := AddGrants(map[], roles[0].permissions, end)] + RoleMap(roles[1..], end)
  }

  function RoleSet(roles: seq<string>): set<string> { set i | 0 <= i < |roles| :: roles[i] }

  function AccountOf(u: User): Account { Account(Password(u), RoleSet(u.roles)) }

  function UserMap(users: seq<User>): (m: map<string, Account>)
    ensures m.Keys == UserNames(users)
  {
    if users == [] then map[]
    else
      assert UserNames(users) == {users[0].name} + UserNames(users[1..]) by { UserNamesFirst(users); }
      map[users[0].name := AccountOf(users[0])] + UserMap(users[1..])
  }

  /** A store without the given roles and users. */
  function Outside(st: Store, r: set<string>, u: set<string>): Store {
    Store(st.roles - r, Strip(st.users - u, r), None, st.self)
  }

  function OldRoles(st: Store): set<string> { if st.config.Some? then RoleNames(st.config.value.roles) else {} }
  function OldUsers(st: Store): set<string> { if st.config.Some? then UserNames(st.config.value.users) else {} }

  /** The store after a complete reconciliation: the target's roles and users exactly as configured,
      nothing else from the recorded configuration, and everything outside both as it was, less the
      deleted roles. */
  function Final(st: Store, target: ACLConfig, end: PrefixEnd): Store {
    if st.config == Some(target) then st
    else
      var out := Outside(st, OldRoles(st) + RoleNames(target.roles), OldUsers(st) + UserNames(target.users));
      Store(out.roles + RoleMap(target.roles, end), out.users + UserMap(target.users), Some(target), st.self)
  }

  /** Root exists, and accounts refer to existing roles. */
  predicate RootSet(st: Store) {
    ROOT in st.roles && ROOT in st.users && forall u | u in st.users :: st.users[u].roles <= st.roles.Keys
  }

  /** Authentication is set up, and the operator may act. */
  predicate RootReady(st: Store) { RootSet(st) && Authorized(st) }

  /** Modes that applyACLConfig knows, and no name of the operator's own: neither root nor the account that
      the operator acts as. */
  predicate Deployable(c: ACLConfig, self: string) { ModesKnown(c.roles) && NamesFree(c, self) }

  predicate ModesKnown(roles: seq<Role>) {
    forall i, k | 0 <= i < |roles| && 0 <= k < |roles[i].permissions| :: ParseMode(roles[i].permissions[k].mode).Some?
  }

  predicate NamesFree(c: ACLConfig, self: string) {
    ROOT !in RoleNames(c.roles) && ROOT !in UserNames(c.users) && self !in UserNames(c.users)
  }

  // ---- sequences of operations ------------------------------------------------------------

  lemma {:induction false} NamesFirst(roles: seq<Role>)
    requires roles != []
    ensures RoleNames(roles) == {roles[0].name} + RoleNames(roles[1..])
  {
    var rest := roles[1..];
    forall i | 0 < i < |roles| ensures roles[i].name in RoleNames(rest) { assert rest[i - 1] == roles[i]; }
    forall i | 0 <= i < |rest| ensures rest[i].name in RoleNames(roles) { assert rest[i] == roles[i + 1]; }
  }

  lemma {:induction false} UserNamesFirst(users: seq<User>)
    requires users != []
    ensures UserNames(users) == {users[0].name} + UserNames(users[1..])
  {
    var rest := users[1..];
    forall i | 0 < i < |users| ensures users[i].name in UserNames(rest) { assert rest[i - 1] == users[i]; }
    forall i | 0 <= i < |rest| ensures rest[i].name in UserNames(users) { assert rest[i] == users[i + 1]; }
  }

  lemma {:induction false} RunConcat(a: seq<Op>, b: seq<Op>, st: Store)
    ensures Run(a + b, st) == if Run(a, st).ok then Run(b, Run(a, st).store) else Run(a, st)
    decreases |a|
  {
    if a == [] {
      assert a + b == b;
    } else {
      assert (a + b)[1..] == a[1..] + b;
      match Step(a[0], st) {
        case None =>
        case Some(t) => RunConcat(a[1..], b, t);
      }
    }
  }

  lemma {:induction false} RunOne(op: Op, rest: seq<Op>, st: Store)
    ensures Run([op] + rest, st) == match Step(op, st) case None => Outcome(st, false) case Some(t) => Run(rest, t)
  {
    assert ([op] + rest)[1..] == rest;
  }

  lemma {:induction false} RunTwo(a: Op, b: Op, rest: seq<Op>, st: Store, t: Store, u: Store)
    requires Step(a, st) == Some(t) && Step(b, t) == Some(u)
    ensures Run([a, b] + rest, st) == Run(rest, u)
  {
    assert ([a, b] + rest)[1..] == [b] + rest;
    assert [a, b] + rest == [a] + ([b] + rest);
    RunOne(a, [b] + rest, st);
    RunOne(b, rest, t);
  }

  lemma {:induction false} StepKeepsRoot(op: Op, st: Store)
    requires RootSet(st) && Step(op, st).Some?
    ensures RootSet(Step(op, st).value) && Step(op, st).value.self == st.self
    ensures op != DropUser(st.self) ==> Authorized(Step(op, st).value)
  {
  }

  /** The operations do not delete the operator's own account. */
  predicate SparesSelf(ops: seq<Op>, self: string) { forall k | 0 <= k < |ops| :: ops[k] != DropUser(self) }

  lemma {:induction false} RunKeepsRoot(ops: seq<Op>, st: Store)
    requires RootReady(st) && SparesSelf(ops, st.self)
    ensures RootReady(Run(ops, st).store) && Run(ops, st).store.self == st.self
    decreases |ops|
  {
    if ops != [] {
      match Step(ops[0], st) {
        case None =>
        case Some(t) =>
          StepKeepsRoot(ops[0], st);
          RunKeepsRoot(ops[1..], t);
      }
    }
  }

  lemma {:induction false} TouchSpares(ops: seq<Op>, r: set<string>, u: set<string>, self: string)
    requires AllTouch(ops, r, u) && self !in u
    ensures SparesSelf(ops, self)
  {
    forall k | 0 <= k < |ops| ensures ops[k] != DropUser(self) { assert Touches(ops[k], r, u); }
  }

  lemma {:induction false} ConfigSparesSelf(c: ACLConfig, end: PrefixEnd, self: string)
    requires NamesFree(c, self)
    ensures SparesSelf(ApplyOps(c, end), self) && SparesSelf(RemoveOps(c), self)
  {
    var r, u := RoleNames(c.roles), UserNames(c.users);
    RolesTouch(c.roles, end, r, u);
    UsersTouch(c.users, r, u);
    TouchSpares(RolesOps(c.roles, end) + UsersOps(c.users), r, u, self);
    TouchSpares(DropUsersOps(c.users) + DropRolesOps(c.roles), r, u, self);
  }

  // ---- applying: roles ------------------------------------------------------------------------

  lemma {:induction false} PermissionsRun(n: string, perms: seq<Permission>, end: PrefixEnd, st: Store)
    requires Authorized(st) && n in st.roles && forall k | 0 <= k < |perms| :: ParseMode(perms[k].mode).Some?
    ensures Run(PermissionOps(n, perms, end), st)
            == Outcome(st.(roles := st.roles[n := AddGrants(st.roles[n], perms, end)]), true)
    decreases |perms|
  {
    if perms == [] {
      assert st.roles[n := st.roles[n]] == st.roles;
    } else {
      var op := PermissionOp(n, perms[0], end);
      var t := Step(op, st).value;
      RunOne(op, PermissionOps(n, perms[1..], end), st);
      PermissionsRun(n, perms[1..], end, t);
      assert t.roles[n := AddGrants(t.roles[n], perms[1..], end)] == st.roles[n := AddGrants(st.roles[n], perms, end)];
    }
  }

  /** Without the named roles, in the role map and in the accounts. */
  function WithoutRoles(st: Store, r: set<string>): Store {
    st.(roles := st.roles - r, users := Strip(st.users, r))
  }

  lemma {:induction false} DropRoleIs(n: string, st: Store)
    requires RootReady(st) && n != ROOT
    ensures Step(DropRole(n), st) == Some(WithoutRoles(st, {n}))
  {
    if n !in st.roles {
      assert st.roles - {n} == st.roles;
      forall u | u in st.users ensures st.users[u].roles - {n} == st.users[u].roles { assert n !in st.users[u].roles; }
      assert Strip(st.users, {n}) == st.users;
    }
  }

  lemma {:induction false} RoleRun(r: Role, end: PrefixEnd, st: Store)
    requires RootReady(st) && r.name != ROOT && r.name != ""
    requires forall k | 0 <= k < |r.permissions| :: ParseMode(r.permissions[k].mode).Some?
    ensures Run(RoleOps(r, end), st) == Outcome(Installed(st, [r], end), true)
  {
    var n := r.name;
    DropRoleIs(n, st);
    var t := WithoutRoles(st, {n});
    var u := t.(roles := t.roles[n := map[]]);
    RunTwo(DropRole(n), AddRole(n), PermissionOps(n, r.permissions, end), st, t, u);
    PermissionsRun(n, r.permissions, end, u);
    NamesFirst([r]);
    assert RoleNames([r]) == {n};
    assert u.roles[n := AddGrants(map[], r.permissions, end)] == (st.roles - {n}) + RoleMap([r], end);
  }

  /** The store after all the roles were deleted, if present, and created again. */
  function Installed(st: Store, roles: seq<Role>, end: PrefixEnd): Store {
    st.(roles := (st.roles - RoleNames(roles)) + RoleMap(roles, end), users := Strip(st.users, RoleNames(roles)))
  }

  lemma {:induction false} StripTwice(users: map<string, Account>, a: set<string>, b: set<string>)
    ensures Strip(Strip(users, a), b) == Strip(users, a + b)
  {
    forall u | u in users ensures users[u].roles - a - b == users[u].roles - (a + b) {}
  }

  lemma {:induction false} StripNothing(users: map<string, Account>)
    ensures Strip(users, {}) == users
  {
    forall u | u in users ensures users[u].(roles := users[u].roles - {}) == users[u] {
      assert users[u].roles - {} == users[u].roles;
    }
  }

  /** Replacing one entry and then the others is replacing them all. */
  lemma {:induction false} ReplaceFirst<T>(m: map<string, T>, n: string, v: T, rest: map<string, T>)
    requires n !in rest
    ensures ((m - {n}) + map[n := v]) - rest.Keys + rest == (m - ({n} + rest.Keys)) + (map[n := v] + rest)
  {
  }

  lemma {:induction false} InstallFirst(st: Store, roles: seq<Role>, end: PrefixEnd)
    requires roles != [] && UniqueRoles(roles)
    ensures Installed(Installed(st, roles[..1], end), roles[1..], end) == Installed(st, roles, end)
  {
    var n, rest := roles[0].name, roles[1..];
    NamesFirst(roles);
    NamesFirst(roles[..1]);
    assert RoleNames(roles[..1]) == {n} && RoleNames(roles) == {n} + RoleNames(rest);
    assert n !in RoleNames(rest);
    StripTwice(st.users, {n}, RoleNames(rest));
    var g := AddGrants(map[], roles[0].permissions, end);
    assert roles[..1][1..] == [];
    assert RoleMap(roles[..1], end) == map[n := g];
    ReplaceFirst(st.roles, n, g, RoleMap(rest, end));
  }

  lemma {:induction false} InstalledRoot(st: Store, r: Role, end: PrefixEnd)
    requires RootReady(st) && r.name != ROOT
    ensures RootReady(Installed(st, [r], end))
  {
    NamesFirst([r]);
    assert RoleNames([r]) == {r.name};
    var t := Installed(st, [r], end);
    forall u | u in t.users ensures t.users[u].roles <= t.roles.Keys { assert st.users[u].roles <= st.roles.Keys; }
  }

  lemma {:induction false} RolesRun(roles: seq<Role>, end: PrefixEnd, st: Store)
    requires RootReady(st) && UniqueRoles(roles) && ModesKnown(roles) && ROOT !in RoleNames(roles)
    requires "" !in RoleNames(roles)
    ensures Run(RolesOps(roles, end), st) == Outcome(Installed(st, roles, end), true)
    decreases |roles|
  {
    if roles == [] {
      assert RoleNames(roles) == {};
      assert (st.roles - {}) + map[] == st.roles && Strip(st.users, {}) == st.users by { StripNothing(st.users); }
    } else {
      var rest := roles[1..];
      NamesFirst(roles);
      RoleRun(roles[0], end, st);
      var t := Installed(st, [roles[0]], end);
      InstalledRoot(st, roles[0], end);
      RunConcat(RoleOps(roles[0], end), RolesOps(rest, end), st);
      RolesRun(rest, end, t);
      assert roles[..1] == [roles[0]];
      InstallFirst(st, roles, end);
    }
  }

  // ---- applying: users ------------------------------------------------------------------------

  lemma {:induction false} GrantRolesRun(n: string, roles: seq<string>, st: Store)
    requires Authorized(st) && n in st.users && forall k | 0 <= k < |roles| :: roles[k] in st.roles || roles[k] == ROOT
    ensures Run(GrantRoleOps(n, roles), st)
            == Outcome(st.(users := st.users[n := st.users[n].(roles := st.users[n].roles + RoleSet(roles))]), true)
    decreases |roles|
  {
    if roles == [] {
      assert RoleSet(roles) == {} && st.users[n].roles + RoleSet(roles) == st.users[n].roles;
      assert st.users[n := st.users[n]] == st.users;
    } else {
      var op, rest := GrantRole(n, roles[0]), roles[1..];
      var t := Step(op, st).value;
      RunOne(op, GrantRoleOps(n, rest), st);
      GrantRolesRun(n, rest, t);
      assert roles == [roles[0]] + rest;
      assert t.users[n].roles + RoleSet(rest) == st.users[n].roles + RoleSet(roles);
    }
  }

  function WithUsers(st: Store, users: seq<User>): Store {
    st.(users := (st.users - UserNames(users)) + UserMap(users))
  }

  lemma {:induction false} UserRun(u: User, st: Store)
    requires Authorized(st) && u.name != "" && u.name != ROOT && u.name != st.self
    requires forall k | 0 <= k < |u.roles| :: u.roles[k] in st.roles || u.roles[k] == ROOT
    ensures Run(UserOps(u), st) == Outcome(WithUsers(st, [u]), true) && Authorized(WithUsers(st, [u]))
  {
    var n := u.name;
    var t := st.(users := st.users - {n});
    if n !in st.users { assert st.users - {n} == st.users; }
    assert Step(DropUser(n), st) == Some(t);
    var v := t.(users := t.users[n := Account(Password(u), {})]);
    RunTwo(DropUser(n), AddUser(n, Password(u)), GrantRoleOps(n, u.roles), st, t, v);
    GrantRolesRun(n, u.roles, v);
    UserNamesFirst([u]);
    assert UserNames([u]) == {n};
    assert {} + RoleSet(u.roles) == RoleSet(u.roles);
    assert v.users[n := AccountOf(u)] == (st.users - {n}) + UserMap([u]);
  }

  lemma {:induction false} UsersRun(users: seq<User>, st: Store)
    requires Authorized(st) && UniqueUsers(users) && ROOT !in UserNames(users) && st.self !in UserNames(users)
    requires ROOT in st.roles
    requires forall i | 0 <= i < |users| :: UserOk(users[i], st.roles.Keys)
    ensures Run(UsersOps(users), st) == Outcome(WithUsers(st, users), true) && Authorized(WithUsers(st, users))
    decreases |users|
  {
    if users == [] {
      assert (st.users - {}) + map[] == st.users;
    } else {
      var rest := users[1..];
      UserNamesFirst(users);
      assert UserOk(users[0], st.roles.Keys);
      UserRun(users[0], st);
      var t := WithUsers(st, [users[0]]);
      RunConcat(UserOps(users[0]), UsersOps(rest), st);
      UsersRun(rest, t);
      WithUsersFirst(st, users);
    }
  }

  lemma {:induction false} WithUsersFirst(st: Store, users: seq<User>)
    requires users != [] && UniqueUsers(users)
    ensures WithUsers(WithUsers(st, [users[0]]), users[1..]) == WithUsers(st, users)
  {
    var n, rest := users[0].name, users[1..];
    UserNamesFirst(users);
    UserNamesFirst([users[0]]);
    assert UserNames([users[0]]) == {n} && n !in UserNames(rest);
    assert [users[0]][1..] == [];
    assert UserMap([users[0]]) == map[n := AccountOf(users[0])];
    ReplaceFirst(st.users, n, AccountOf(users[0]), UserMap(rest));
  }

  // ---- removing ---------------------------------------------------------------------------------

  lemma {:induction false} DropUsersRun(users: seq<User>, st: Store)
    requires Authorized(st) && ROOT !in UserNames(users) && st.self !in UserNames(users)
    ensures Run(DropUsersOps(users), st) == Outcome(st.(users := st.users - UserNames(users)), true)
    ensures Authorized(st.(users := st.users - UserNames(users)))
    decreases |users|
  {
    if users == [] {
      assert st.users - {} == st.users;
    } else {
      var n, rest := users[0].name, users[1..];
      UserNamesFirst(users);
      var t := st.(users := st.users - {n});
      if n !in st.users { assert st.users - {n} == st.users; }
      RunOne(DropUser(n), DropUsersOps(rest), st);
      DropUsersRun(rest, t);
      assert t.users - UserNames(rest) == st.users - UserNames(users);
    }
  }

  lemma {:induction false} DropRolesRun(roles: seq<Role>, st: Store)
    requires RootReady(st) && ROOT !in RoleNames(roles)
    ensures Run(DropRolesOps(roles), st) == Outcome(WithoutRoles(st, RoleNames(roles)), true)
    decreases |roles|
  {
    if roles == [] {
      assert RoleNames(roles) == {};
      assert st.roles - {} == st.roles && Strip(st.users, {}) == st.users by { StripNothing(st.users); }
    } else {
      var n, rest := roles[0].name, roles[1..];
      NamesFirst(roles);
      DropRoleIs(n, st);
      StepKeepsRoot(DropRole(n), st);
      var t := WithoutRoles(st, {n});
      RunOne(DropRole(n), DropRolesOps(rest), st);
      DropRolesRun(rest, t);
      StripTwice(st.users, {n}, RoleNames(rest));
      assert t.roles - RoleNames(rest) == st.roles - RoleNames(roles);
    }
  }

  function NoEnd(): PrefixEnd { s => s }

  /** The store after a configuration was removed. */
  function Removed(st: Store, c: ACLConfig): Store {
    WithoutRoles(st.(users := st.users - UserNames(c.users)), RoleNames(c.roles)).(config := None)
  }

  lemma {:induction false} RemoveRun(c: ACLConfig, st: Store)
    requires RootReady(st) && NamesFree(c, st.self)
    ensures Run(RemoveOps(c), st) == Outcome(Removed(st, c), true)
    ensures RootReady(Removed(st, c))
  {
    var t := st.(users := st.users - UserNames(c.users));
    DropUsersRun(c.users, st);
    DropRolesRun(c.roles, t);
    RunConcat(DropUsersOps(c.users), DropRolesOps(c.roles), st);
    RunConcat(DropUsersOps(c.users) + DropRolesOps(c.roles), [DeleteConfig], st);
    assert [DeleteConfig] == [DeleteConfig] + [];
    RunOne(DeleteConfig, [], Run(DropRolesOps(c.roles), t).store);
    ConfigSparesSelf(c, NoEnd(), st.self);
    RunKeepsRoot(RemoveOps(c), st);
  }

  // ---- complete reconciliations -----------------------------------------------------------------

  function Applied(st: Store, c: ACLConfig, end: PrefixEnd): Store {
    WithUsers(Installed(st, c.roles, end), c.users).(config := Some(c))
  }

  lemma {:induction false} ApplyRun(c: ACLConfig, end: PrefixEnd, st: Store)
    requires RootReady(st) && Valid(c) && Deployable(c, st.self)
    ensures Run(ApplyOps(c, end), st) == Outcome(Applied(st, c, end), true)
  {
    assert "" !in RoleNames(c.roles);
    RolesRun(c.roles, end, st);
    var t := Installed(st, c.roles, end);
    forall i | 0 <= i < |c.users| ensures UserOk(c.users[i], t.roles.Keys) {
      assert UserOk(c.users[i], RoleNames(c.roles));
    }
    UsersRun(c.users, t);
    RunConcat(RolesOps(c.roles, end), UsersOps(c.users), st);
    RunConcat(RolesOps(c.roles, end) + UsersOps(c.users), [PutConfig(c)], st);
    assert [PutConfig(c)] == [PutConfig(c)] + [];
    RunOne(PutConfig(c), [], WithUsers(t, c.users));
  }

  lemma {:induction false} StripMinus(users: map<string, Account>, r: set<string>, u: set<string>)
    ensures Strip(users, r) - u == Strip(users - u, r)
  {
  }

  lemma {:induction false} AppliedIsFinal(st: Store, c: ACLConfig, end: PrefixEnd)
    requires st.config == None
    ensures Applied(st, c, end) == Final(st, c, end)
  {
    var r, u := RoleNames(c.roles), UserNames(c.users);
    assert {} + r == r && {} + u == u;
    StripMinus(st.users, r, u);
  }

  /** Once the recorded configuration is removed, what remains is outside it. */
  lemma {:induction false} RemovedFinal(st: Store, prior: ACLConfig, c: ACLConfig, end: PrefixEnd)
    requires st.config == Some(prior) && prior != c
    ensures Final(Removed(st, prior), c, end) == Final(st, c, end)
  {
    var ro, uo, rt, ut := RoleNames(prior.roles), UserNames(prior.users), RoleNames(c.roles), UserNames(c.users);
    var t := Removed(st, prior);
    assert {} + rt == rt && {} + ut == ut;
    assert (st.roles - ro) - rt == st.roles - (ro + rt);
    StripMinus(st.users - uo, ro, ut);
    StripTwice(st.users - uo - ut, ro, rt);
    assert st.users - uo - ut == st.users - (uo + ut);
  }

  /** The recorded configuration can be removed. */
  predicate RecordedFree(st: Store) { st.config.Some? ==> NamesFree(st.config.value, st.self) }

  lemma {:induction false} ChangesExact(st: Store, c: ACLConfig, end: PrefixEnd)
    requires RootReady(st) && RecordedFree(st) && Valid(c) && Deployable(c, st.self)
    ensures Run(Changes(st, c, end), st) == Outcome(Final(st, c, end), true)
  {
    if st.config == Some(c) {
    } else if st.config.Some? {
      var prior := st.config.value;
      RemoveRun(prior, st);
      RunConcat(RemoveOps(prior), ApplyOps(c, end), st);
      ApplyRun(c, end, Removed(st, prior));
      AppliedIsFinal(Removed(st, prior), c, end);
      RemovedFinal(st, prior, c, end);
    } else {
      assert [] + ApplyOps(c, end) == ApplyOps(c, end);
      ApplyRun(c, end, st);
      AppliedIsFinal(st, c, end);
    }
  }

  /** Reconciliation is exact: every operation succeeds and the store ends up as wanted. */
  lemma {:induction false} ReconcileExact(st: Store, c: ACLConfig, end: PrefixEnd)
    requires RootReady(st) && RecordedFree(st) && Valid(c) && Deployable(c, st.self)
    ensures Run(ReconcileOps(st, c, end), st) == Outcome(Final(st, c, end), true)
  {
    RunOne(Enter, Changes(st, c, end), st);
    ChangesExact(st, c, end);
  }

  lemma {:induction false} FinalReady(st: Store, c: ACLConfig, end: PrefixEnd)
    requires RootReady(st) && RecordedFree(st) && Valid(c) && Deployable(c, st.self)
    ensures RootReady(Final(st, c, end)) && RecordedFree(Final(st, c, end))
  {
    ChangesExact(st, c, end);
    ConfigSparesSelf(c, end, st.self);
    if st.config.Some? { ConfigSparesSelf(st.config.value, end, st.self); }
    RunKeepsRoot(Changes(st, c, end), st);
  }

  // ---- when does it fail ----------------------------------------------------------------------------

  /** The operation fails in every store with root set up, whether the operator is authorized or not. */
  predicate AlwaysFails(op: Op, self: string) {
    op == BadMode || op == DropRole(ROOT) || op == DropUser(ROOT) || (op.AddUser? && op.name == self)
  }

  lemma {:induction false} FailsSomewhere(ops: seq<Op>, k: nat, st: Store)
    requires RootSet(st) && k < |ops| && AlwaysFails(ops[k], st.self)
    ensures !Run(ops, st).ok
    decreases |ops|
  {
    match Step(ops[0], st) {
      case None =>
      case Some(t) =>
        StepKeepsRoot(ops[0], st);
        FailsSomewhere(ops[1..], k - 1, t);
    }
  }

  lemma {:induction false} InConcat(a: seq<Op>, b: seq<Op>, op: Op)
    ensures op in a ==> op in a + b
    ensures op in b ==> op in a + b
  {
    if op in b {
      var k :| 0 <= k < |b| && b[k] == op;
      assert (a + b)[|a| + k] == op;
    }
  }

  lemma {:induction false} HasBadMode(n: string, perms: seq<Permission>, end: PrefixEnd, k: nat)
    requires k < |perms| && ParseMode(perms[k].mode).None?
    ensures BadMode in PermissionOps(n, perms, end)
    decreases |perms|
  {
    if k > 0 { HasBadMode(n, perms[1..], end, k - 1); }
  }

  lemma {:induction false} RolesOpsHold(roles: seq<Role>, end: PrefixEnd, i: nat, op: Op)
    requires i < |roles| && op in RoleOps(roles[i], end)
    ensures op in RolesOps(roles, end)
    decreases |roles|
  {
    InConcat(RoleOps(roles[0], end), RolesOps(roles[1..], end), op);
    if i > 0 { RolesOpsHold(roles[1..], end, i - 1, op); }
  }

  lemma {:induction false} UsersOpsHold(users: seq<User>, i: nat, op: Op)
    requires i < |users| && op in UserOps(users[i])
    ensures op in UsersOps(users)
    decreases |users|
  {
    InConcat(UserOps(users[0]), UsersOps(users[1..]), op);
    if i > 0 { UsersOpsHold(users[1..], i - 1, op); }
  }

  /** A configuration that is not deployable contains an operation that always fails. */
  lemma {:induction false} UndeployableOp(c: ACLConfig, end: PrefixEnd, self: string) returns (op: Op)
    requires !Deployable(c, self)
    ensures op in ApplyOps(c, end) && AlwaysFails(op, self)
  {
    var rs, us := RolesOps(c.roles, end), UsersOps(c.users);
    if ROOT in UserNames(c.users) || self in UserNames(c.users) {
      var i :| 0 <= i < |c.users| && (c.users[i].name == ROOT || c.users[i].name == self);
      var user := c.users[i];
      op := if user.name == ROOT then DropUser(ROOT) else AddUser(self, Password(user));
      assert UserOps(user)[0] == DropUser(user.name) && UserOps(user)[1] == AddUser(user.name, Password(user));
      UsersOpsHold(c.users, i, op);
    } else if ROOT in RoleNames(c.roles) {
      var i :| 0 <= i < |c.roles| && c.roles[i].name == ROOT;
      op := DropRole(ROOT);
      assert RoleOps(c.roles[i], end)[0] == op;
      RolesOpsHold(c.roles, end, i, op);
    } else {
      op := BadMode;
      BadModeHolds(c.roles, end);
    }
    InConcat(rs, us, op);
    InConcat(rs + us, [PutConfig(c)], op);
  }

  lemma {:induction false} BadModeHolds(roles: seq<Role>, end: PrefixEnd)
    requires !ModesKnown(roles)
    ensures BadMode in RolesOps(roles, end)
  {
    var i, k :| 0 <= i < |roles| && 0 <= k < |roles[i].permissions| && ParseMode(roles[i].permissions[k].mode).None?;
    var role := roles[i];
    HasBadMode(role.name, role.permissions, end, k);
    InConcat([DropRole(role.name), AddRole(role.name)], PermissionOps(role.name, role.permissions, end), BadMode);
    RolesOpsHold(roles, end, i, BadMode);
  }

  /** A validated configuration that differs from the recorded one is applied without error if and only
      if its modes are known and it uses neither root's name nor that of the operator's own account;
      Validate checks none of this. */
  lemma {:induction false} SucceedsExactly(st: Store, c: ACLConfig, end: PrefixEnd)
    requires RootReady(st) && RecordedFree(st) && Valid(c) && st.config != Some(c)
    ensures Run(ReconcileOps(st, c, end), st).ok <==> Deployable(c, st.self)
  {
    if Deployable(c, st.self) {
      ReconcileExact(st, c, end);
    } else {
      var op := UndeployableOp(c, end, st.self);
      var rem := if st.config.Some? then RemoveOps(st.config.value) else [];
      InConcat(rem, ApplyOps(c, end), op);
      InConcat([Enter], Changes(st, c, end), op);
      var k :| 0 <= k < |ReconcileOps(st, c, end)| && ReconcileOps(st, c, end)[k] == op;
      FailsSomewhere(ReconcileOps(st, c, end), k, st);
    }
  }

  // ---- locked out -----------------------------------------------------------------------------------------

  /** Without its account the operator can do nothing, whatever it tries. */
  lemma {:induction false} LockedOut(ops: seq<Op>, st: Store)
    requires !Authorized(st)
    ensures Run(ops, st) == Outcome(st, ops == [])
  {
  }

  /** Applying users with the operator's own account among them ends right after that account is deleted. */
  lemma {:induction false} UsersLockOut(users: seq<User>, st: Store)
    requires RootSet(st) && Authorized(st) && st.self != ROOT && st.self in UserNames(users)
    requires UniqueUsers(users) && ROOT !in UserNames(users)
    requires forall i | 0 <= i < |users| :: UserOk(users[i], st.roles.Keys)
    ensures !Run(UsersOps(users), st).ok && !Authorized(Run(UsersOps(users), st).store)
    decreases |users|
  {
    var u, rest := users[0], users[1..];
    UserNamesFirst(users);
    if u.name == st.self {
      var t := st.(users := st.users - {u.name});
      var tail := [AddUser(u.name, Password(u))] + GrantRoleOps(u.name, u.roles);
      assert UserOps(u) == [DropUser(u.name)] + tail;
      RunOne(DropUser(u.name), tail, st);
      LockedOut(tail, t);
      RunConcat(UserOps(u), UsersOps(rest), st);
    } else {
      assert UserOk(u, st.roles.Keys);
      UserRun(u, st);
      RunConcat(UserOps(u), UsersOps(rest), st);
      RunKeepsSet(UserOps(u), st);
      UsersLockOut(rest, WithUsers(st, [u]));
    }
  }

  lemma {:induction false} RunKeepsSet(ops: seq<Op>, st: Store)
    requires RootSet(st)
    ensures RootSet(Run(ops, st).store) && Run(ops, st).store.self == st.self
    decreases |ops|
  {
    if ops != [] {
      match Step(ops[0], st) {
        case None =>
        case Some(t) =>
          StepKeepsRoot(ops[0], st);
          RunKeepsSet(ops[1..], t);
      }
    }
  }

  lemma {:induction false} ApplyLocksOut(c: ACLConfig, end: PrefixEnd, st: Store)
    requires RootReady(st) && Valid(c) && ModesKnown(c.roles) && ROOT !in RoleNames(c.roles) && ROOT !in UserNames(c.users)
    requires st.self != ROOT && st.self in UserNames(c.users)
    ensures !Run(ApplyOps(c, end), st).ok && !Authorized(Run(ApplyOps(c, end), st).store)
  {
    assert "" !in RoleNames(c.roles);
    RolesRun(c.roles, end, st);
    var t := Installed(st, c.roles, end);
    RunKeepsSet(RolesOps(c.roles, end), st);
    InstalledAuthorized(st, c.roles, end);
    forall i | 0 <= i < |c.users| ensures UserOk(c.users[i], t.roles.Keys) {
      assert UserOk(c.users[i], RoleNames(c.roles));
    }
    UsersLockOut(c.users, t);
    RunConcat(RolesOps(c.roles, end), UsersOps(c.users), st);
    RunConcat(RolesOps(c.roles, end) + UsersOps(c.users), [PutConfig(c)], st);
  }

  lemma {:induction false} InstalledAuthorized(st: Store, roles: seq<Role>, end: PrefixEnd)
    requires Authorized(st) && ROOT !in RoleNames(roles)
    ensures Authorized(Installed(st, roles, end))
  {
  }

  /** The target names the operator's own account, which is not root: the reconciliation deletes the account
      and fails, and no later one, for the same target or another, can do anything about it. */
  lemma {:induction false} SelfLocksOut(st: Store, c: ACLConfig, end: PrefixEnd, later: ACLConfig)
    requires RootReady(st) && RecordedFree(st) && Valid(c) && ModesKnown(c.roles) && st.config != Some(c)
    requires ROOT !in RoleNames(c.roles) && ROOT !in UserNames(c.users)
    requires st.self != ROOT && st.self in UserNames(c.users)
    ensures var cut := Run(ReconcileOps(st, c, end), st).store;
            && !Run(ReconcileOps(st, c, end), st).ok && st.self !in cut.users
            && Run(ReconcileOps(cut, later, end), cut) == Outcome(cut, false)
  {
    RunOne(Enter, Changes(st, c, end), st);
    if st.config.Some? {
      RemoveRun(st.config.value, st);
      RunConcat(RemoveOps(st.config.value), ApplyOps(c, end), st);
      ApplyLocksOut(c, end, Removed(st, st.config.value));
    } else {
      assert [] + ApplyOps(c, end) == ApplyOps(c, end);
      ApplyLocksOut(c, end, st);
    }
    var cut := Run(ReconcileOps(st, c, end), st).store;
    RunKeepsRoles(ReconcileOps(st, c, end), st);
    LockedOut(ReconcileOps(cut, later, end), cut);
  }

  /** As long as it exists, the operator's account keeps root. */
  lemma {:induction false} RunKeepsRoles(ops: seq<Op>, st: Store)
    requires RootSet(st) && Authorized(st)
    ensures var t := Run(ops, st).store; t.self == st.self && (st.self in t.users ==> Authorized(t))
    decreases |ops|
  {
    if ops != [] {
      match Step(ops[0], st) {
        case None =>
        case Some(t) =>
          StepKeepsRoot(ops[0], st);
          if Authorized(t) { RunKeepsRoles(ops[1..], t); } else { LockedOut(ops[1..], t); }
      }
    }
  }

  /** So a cut right after the operator's account was deleted is not repaired by running again. */
  lemma {:induction false} CutAfterOwnAccount(st: Store, ops: seq<Op>, k: nat, end: PrefixEnd, later: ACLConfig)
    requires RootReady(st) && st.self != ROOT && k < |ops| && ops[k] == DropUser(st.self) && Run(ops[..k], st).ok
    ensures var cut := After(ops, k + 1, st);
            !Authorized(cut) && Run(ReconcileOps(cut, later, end), cut) == Outcome(cut, false)
  {
    assert ops[..k + 1] == ops[..k] + [ops[k]];
    var t := Run(ops[..k], st).store;
    RunKeepsRoles(ops[..k], st);
    RunConcat(ops[..k], [ops[k]], st);
    assert [ops[k]] == [ops[k]] + [];
    RunOne(ops[k], [], t);
    LockedOut(ReconcileOps(After(ops, k + 1, st), later, end), After(ops, k + 1, st));
  }

  // ---- cut short ----------------------------------------------------------------------------------------

  /** The operation changes nothing but the roles in `r` and the users in `u`. */
  predicate Touches(op: Op, r: set<string>, u: set<string>) {
    match op
    case Enter => true
    case DropRole(n) => n in r
    case AddRole(n) => n in r
    case Grant(n, _, _) => n in r
    case BadMode => true
    case DropUser(n) => n in u
    case AddUser(n, _) => n in u
    case GrantRole(n, _) => n in u
    case PutConfig(_) => false
    case DeleteConfig => false
  }

  predicate AllTouch(ops: seq<Op>, r: set<string>, u: set<string>) {
    forall k | 0 <= k < |ops| :: Touches(ops[k], r, u)
  }

  lemma {:induction false} StepOutside(op: Op, st: Store, r: set<string>, u: set<string>)
    requires Touches(op, r, u) && Step(op, st).Some?
    ensures Outside(Step(op, st).value, r, u) == Outside(st, r, u)
    ensures Step(op, st).value.config == st.config
  {
    var t := Step(op, st).value;
    assert t.roles - r == st.roles - r;
    assert (t.users - u).Keys == (st.users - u).Keys;
    forall x | x in st.users && x !in u ensures t.users[x].roles - r == st.users[x].roles - r {}
    assert Strip(t.users - u, r) == Strip(st.users - u, r);
  }

  lemma {:induction false} RunOutside(ops: seq<Op>, st: Store, r: set<string>, u: set<string>)
    requires AllTouch(ops, r, u)
    ensures Outside(Run(ops, st).store, r, u) == Outside(st, r, u)
    ensures Run(ops, st).store.config == st.config
    decreases |ops|
  {
    if ops != [] {
      assert Touches(ops[0], r, u);
      match Step(ops[0], st) {
        case None =>
        case Some(t) =>
          StepOutside(ops[0], st, r, u);
          RunOutside(ops[1..], t, r, u);
      }
    }
  }

  lemma {:induction false} PermissionsTouch(n: string, perms: seq<Permission>, end: PrefixEnd, r: set<string>,
                                            u: set<string>)
    requires n in r
    ensures AllTouch(PermissionOps(n, perms, end), r, u)
    decreases |perms|
  {
    if perms != [] { PermissionsTouch(n, perms[1..], end, r, u); }
  }

  lemma {:induction false} GrantsTouch(n: string, roles: seq<string>, r: set<string>, u: set<string>)
    requires n in u
    ensures AllTouch(GrantRoleOps(n, roles), r, u)
    decreases |roles|
  {
    if roles != [] { GrantsTouch(n, roles[1..], r, u); }
  }

  lemma {:induction false} RolesTouch(roles: seq<Role>, end: PrefixEnd, r: set<string>, u: set<string>)
    requires RoleNames(roles) <= r
    ensures AllTouch(RolesOps(roles, end), r, u)
    ensures AllTouch(DropRolesOps(roles), r, u)
    decreases |roles|
  {
    if roles != [] {
      NamesFirst(roles);
      PermissionsTouch(roles[0].name, roles[0].permissions, end, r, u);
      RolesTouch(roles[1..], end, r, u);
    }
  }

  lemma {:induction false} UsersTouch(users: seq<User>, r: set<string>, u: set<string>)
    requires UserNames(users) <= u
    ensures AllTouch(UsersOps(users), r, u)
    ensures AllTouch(DropUsersOps(users), r, u)
    decreases |users|
  {
    if users != [] {
      UserNamesFirst(users);
      GrantsTouch(users[0].name, users[0].roles, r, u);
      UsersTouch(users[1..], r, u);
    }
  }

  /** The store after the first k operations. */
  function After(ops: seq<Op>, k: nat, st: Store): Store
    requires k <= |ops|
  {
    Run(ops[..k], st).store
  }

  /** `s` still leads to the same final store. */
  predicate OnTheWay(s: Store, st: Store, c: ACLConfig, end: PrefixEnd) {
    RootReady(s) && RecordedFree(s) && Final(s, c, end) == Final(st, c, end)
  }

  lemma {:induction false} CutInRemove(st: Store, prior: ACLConfig, c: ACLConfig, end: PrefixEnd, k: nat)
    requires RootReady(st) && st.config == Some(prior) && prior != c && NamesFree(prior, st.self) && k <= |RemoveOps(prior)|
    ensures OnTheWay(After(RemoveOps(prior), k, st), st, c, end)
  {
    var drops := DropUsersOps(prior.users) + DropRolesOps(prior.roles);
    ConfigSparesSelf(prior, end, st.self);
    RunKeepsRoot(RemoveOps(prior)[..k], st);
    if k < |RemoveOps(prior)| {
      var r, u := RoleNames(prior.roles) + RoleNames(c.roles), UserNames(prior.users) + UserNames(c.users);
      assert RemoveOps(prior)[..k] == drops[..k];
      RolesTouch(prior.roles, end, r, u);
      UsersTouch(prior.users, r, u);
      RunOutside(drops[..k], st, r, u);
    } else {
      assert RemoveOps(prior)[..k] == RemoveOps(prior);
      RemoveRun(prior, st);
      RemovedFinal(st, prior, c, end);
    }
  }

  lemma {:induction false} CutInApply(st: Store, c: ACLConfig, end: PrefixEnd, k: nat)
    requires RootReady(st) && st.config == None && Valid(c) && Deployable(c, st.self) && k <= |ApplyOps(c, end)|
    ensures OnTheWay(After(ApplyOps(c, end), k, st), st, c, end)
  {
    var work := RolesOps(c.roles, end) + UsersOps(c.users);
    ConfigSparesSelf(c, end, st.self);
    RunKeepsRoot(ApplyOps(c, end)[..k], st);
    if k < |ApplyOps(c, end)| {
      var r, u := RoleNames(c.roles), UserNames(c.users);
      assert {} + r == r && {} + u == u;
      assert ApplyOps(c, end)[..k] == work[..k];
      RolesTouch(c.roles, end, r, u);
      UsersTouch(c.users, r, u);
      RunOutside(work[..k], st, r, u);
    } else {
      assert ApplyOps(c, end)[..k] == ApplyOps(c, end);
      ApplyRun(c, end, st);
      AppliedIsFinal(st, c, end);
    }
  }

  lemma {:induction false} CutInChanges(st: Store, c: ACLConfig, end: PrefixEnd, k: nat)
    requires RootReady(st) && RecordedFree(st) && Valid(c) && Deployable(c, st.self) && k <= |Changes(st, c, end)|
    ensures OnTheWay(After(Changes(st, c, end), k, st), st, c, end)
  {
    var ops, app := Changes(st, c, end), ApplyOps(c, end);
    if st.config == Some(c) {
      assert ops[..k] == [];
    } else if st.config == None {
      assert ops == app;
      CutInApply(st, c, end, k);
    } else {
      var prior := st.config.value;
      var rem := RemoveOps(prior);
      if k <= |rem| {
        assert ops[..k] == rem[..k];
        CutInRemove(st, prior, c, end, k);
      } else {
        var j := k - |rem|;
        assert ops[..k] == rem + app[..j];
        RemoveRun(prior, st);
        RunConcat(rem, app[..j], st);
        CutInApply(Removed(st, prior), c, end, j);
        RemovedFinal(st, prior, c, end);
      }
    }
  }

  lemma {:induction false} TakeFirst(op: Op, ops: seq<Op>, k: nat)
    requires 0 < k <= |ops| + 1
    ensures ([op] + ops)[..k] == [op] + ops[..k - 1]
  {
  }

  lemma {:induction false} CutSomewhere(st: Store, c: ACLConfig, end: PrefixEnd, k: nat)
    requires RootReady(st) && RecordedFree(st) && Valid(c) && Deployable(c, st.self) && k <= |ReconcileOps(st, c, end)|
    ensures OnTheWay(After(ReconcileOps(st, c, end), k, st), st, c, end)
  {
    var ops := ReconcileOps(st, c, end);
    if k == 0 {
      assert ops[..0] == [];
    } else {
      TakeFirst(Enter, Changes(st, c, end), k);
      RunOne(Enter, Changes(st, c, end)[..k - 1], st);
      CutInChanges(st, c, end, k - 1);
    }
  }

  /** Restartable: cut a reconciliation after any number of operations; running it again to the end
      with the same target reaches exactly the store of an uninterrupted run. */
  lemma {:induction false} Restartable(st: Store, c: ACLConfig, end: PrefixEnd, k: nat)
    requires RootReady(st) && RecordedFree(st) && Valid(c) && Deployable(c, st.self) && k <= |ReconcileOps(st, c, end)|
    ensures var cut := After(ReconcileOps(st, c, end), k, st);
            Run(ReconcileOps(cut, c, end), cut) == Run(ReconcileOps(st, c, end), st)
  {
    CutSomewhere(st, c, end, k);
    ReconcileExact(st, c, end);
    ReconcileExact(After(ReconcileOps(st, c, end), k, st), c, end);
  }

  // ---- consequences ---------------------------------------------------------------------------------------

  lemma {:induction false} RoleMapAt(roles: seq<Role>, end: PrefixEnd, i: nat)
    requires UniqueRoles(roles) && i < |roles|
    ensures roles[i].name in RoleMap(roles, end)
    ensures RoleMap(roles, end)[roles[i].name] == AddGrants(map[], roles[i].permissions, end)
    decreases |roles|
  {
    NamesFirst(roles);
    if i > 0 {
      RoleMapAt(roles[1..], end, i - 1);
    } else {
      assert roles[0].name !in RoleNames(roles[1..]);
    }
  }

  lemma {:induction false} UserMapAt(users: seq<User>, i: nat)
    requires UniqueUsers(users) && i < |users|
    ensures users[i].name in UserMap(users)
    ensures UserMap(users)[users[i].name] == AccountOf(users[i])
    decreases |users|
  {
    UserNamesFirst(users);
    if i > 0 {
      UserMapAt(users[1..], i - 1);
    } else {
      assert users[0].name !in UserNames(users[1..]);
    }
  }

  /** The string is the word, in letters of either case. */
  predicate Spells(s: string, word: string) {
    |s| == |word| && forall k | 0 <= k < |s| :: SpellsAt(s, word, k)
  }

  predicate SpellsAt(s: string, word: string, k: nat)
    requires k < |s| == |word|
  {
    s[k] == word[k] || ('A' <= s[k] <= 'Z' && s[k] as int + 32 == word[k] as int)
  }

  lemma {:induction false} LowerSpells(s: string, word: string)
    requires forall k | 0 <= k < |word| :: !('A' <= word[k] <= 'Z')
    ensures Lower(s) == word <==> Spells(s, word)
  {
    if s != "" && word != "" {
      LowerSpells(s[1..], word[1..]);
      SpellsFirst(s, word);
      assert Lower(s) == [Lower(s)[0]] + Lower(s[1..]) && word == [word[0]] + word[1..];
    }
  }

  lemma {:induction false} SpellsFirst(s: string, word: string)
    requires s != "" && word != ""
    ensures Spells(s, word) <==> |s| == |word| && SpellsAt(s, word, 0) && Spells(s[1..], word[1..])
  {
    if |s| == |word| {
      forall k | 0 <= k < |s[1..]| ensures SpellsAt(s[1..], word[1..], k) <==> SpellsAt(s, word, k + 1) {}
      if SpellsAt(s, word, 0) && Spells(s[1..], word[1..]) {
        forall k | 0 < k < |s| ensures SpellsAt(s, word, k) { assert SpellsAt(s[1..], word[1..], k - 1); }
      }
    }
  }

  /** The three words that name a mode. */
  lemma {:induction false} ModeIsSpelled(s: string)
    ensures ParseMode(s) == Some(Read) <==> Spells(s, "read")
    ensures ParseMode(s) == Some(Write) <==> Spells(s, "write")
    ensures ParseMode(s) == Some(ReadWrite) <==> Spells(s, "readwrite")
  {
    LowerSpells(s, "read");
    LowerSpells(s, "write");
    LowerSpells(s, "readwrite");
  }

  /** The key range of a permission: from its key to the end of the prefix, or the key alone. */
  predicate IsRange(p: Permission, end: PrefixEnd, range: (string, string)) {
    range.0 == p.key && range.1 == if p.prefix then end(p.key) else ""
  }

  predicate SpellsMode(s: string, mode: Mode) {
    match mode case Read => Spells(s, "read") case Write => Spells(s, "write") case ReadWrite => Spells(s, "readwrite")
  }

  /** The grants are those of the permissions: a key range has one iff some permission is for it, and then
      the mode that the last of these permissions spells. */
  ghost predicate GrantsAre(g: Grants, perms: seq<Permission>, end: PrefixEnd) {
    && (forall range | range in g :: exists k :: 0 <= k < |perms| && IsRange(perms[k], end, range))
    && forall k, range | 0 <= k < |perms| && IsRange(perms[k], end, range) ::
         && range in g
         && ((forall j | k < j < |perms| :: !IsRange(perms[j], end, range)) ==> SpellsMode(perms[k].mode, g[range]))
  }

  /** Of several permissions for one key range the last one counts. */
  lemma {:induction false} LastGrantWins(perms: seq<Permission>, end: PrefixEnd)
    requires forall j | 0 <= j < |perms| :: ParseMode(perms[j].mode).Some?
    ensures GrantsAre(AddGrants(map[], perms, end), perms, end)
  {
    var g := AddGrants(map[], perms, end);
    forall range | range in g ensures exists k :: 0 <= k < |perms| && IsRange(perms[k], end, range) {
      if forall k | 0 <= k < |perms| :: !IsRange(perms[k], end, range) { OthersKeep(map[], perms, end, range); }
    }
    forall k, range | 0 <= k < |perms| && IsRange(perms[k], end, range)
      ensures range in g
      ensures (forall j | k < j < |perms| :: !IsRange(perms[j], end, range)) ==> SpellsMode(perms[k].mode, g[range])
    {
      GrantStays(map[], perms, end, k, range);
      if forall j | k < j < |perms| :: !IsRange(perms[j], end, range) {
        LastGrant(map[], perms, end, k, range);
        ModeIsSpelled(perms[k].mode);
      }
    }
  }

  lemma {:induction false} GrantStays(g: Grants, perms: seq<Permission>, end: PrefixEnd, k: int, range: (string, string))
    requires range in g || (0 <= k < |perms| && IsRange(perms[k], end, range) && ParseMode(perms[k].mode).Some?)
    ensures range in AddGrants(g, perms, end)
    decreases |perms|
  {
    if perms != [] {
      match ParseMode(perms[0].mode) {
        case None => GrantStays(g, perms[1..], end, k - 1, range);
        case Some(m) => GrantStays(g[RangeOf(perms[0], end) := m], perms[1..], end, k - 1, range);
      }
    }
  }

  lemma {:induction false} LastGrant(g: Grants, perms: seq<Permission>, end: PrefixEnd, k: nat, range: (string, string))
    requires k < |perms| && IsRange(perms[k], end, range)
    requires forall j | k < j < |perms| :: !IsRange(perms[j], end, range)
    requires forall j | 0 <= j < |perms| :: ParseMode(perms[j].mode).Some?
    ensures range in AddGrants(g, perms, end) && AddGrants(g, perms, end)[range] == ParseMode(perms[k].mode).value
    decreases |perms|
  {
    var g', rest := g[RangeOf(perms[0], end) := ParseMode(perms[0].mode).value], perms[1..];
    assert forall j | 0 <= j < |rest| :: rest[j] == perms[j + 1];
    if k > 0 {
      LastGrant(g', rest, end, k - 1, range);
    } else {
      OthersKeep(g', rest, end, range);
    }
  }

  lemma {:induction false} OthersKeep(g: Grants, perms: seq<Permission>, end: PrefixEnd, range: (string, string))
    requires forall j | 0 <= j < |perms| :: !IsRange(perms[j], end, range)
    ensures range in AddGrants(g, perms, end) <==> range in g
    ensures range in g ==> AddGrants(g, perms, end)[range] == g[range]
    decreases |perms|
  {
    if perms != [] {
      assert !IsRange(perms[0], end, range);
      match ParseMode(perms[0].mode) {
        case None => OthersKeep(g, perms[1..], end, range);
        case Some(m) => OthersKeep(g[RangeOf(perms[0], end) := m], perms[1..], end, range);
      }
    }
  }

  /** The account is what is configured for the user. */
  ghost predicate AccountIs(a: Account, u: User) {
    && (if u.password == "" then a.password == None else a.password == Some(u.password))
    && forall r :: r in a.roles <==> r in u.roles
  }

  /** The roles and users of the configuration are in the store as they are configured, and it is recorded. */
  ghost predicate Configured(st: Store, c: ACLConfig, end: PrefixEnd) {
    && (forall i | 0 <= i < |c.roles| ::
          c.roles[i].name in st.roles && GrantsAre(st.roles[c.roles[i].name], c.roles[i].permissions, end))
    && (forall i | 0 <= i < |c.users| ::
          c.users[i].name in st.users && AccountIs(st.users[c.users[i].name], c.users[i]))
    && st.config == Some(c)
  }

  lemma {:induction false} FinalOutside(st: Store, c: ACLConfig, end: PrefixEnd)
    requires st.config != Some(c)
    ensures var f := Final(st, c, end);
            && (forall n | n !in RoleNames(c.roles) :: n in f.roles <==> n in st.roles && n !in OldRoles(st))
            && (forall n | n in f.roles && n !in RoleNames(c.roles) :: f.roles[n] == st.roles[n])
            && (forall n | n !in UserNames(c.users) :: n in f.users <==> n in st.users && n !in OldUsers(st))
            && (forall n | n in f.users && n !in UserNames(c.users) ::
                  f.users[n] == st.users[n].(roles := st.users[n].roles - (OldRoles(st) + RoleNames(c.roles))))
  {
  }

  /** What the final store holds, entry by entry. */
  lemma {:induction false} FinalEntries(st: Store, c: ACLConfig, end: PrefixEnd)
    requires RootReady(st) && Valid(c) && ModesKnown(c.roles) && st.config != Some(c)
    ensures Configured(Final(st, c, end), c, end)
    ensures var f := Final(st, c, end);
            && (forall n | n !in RoleNames(c.roles) :: n in f.roles <==> n in st.roles && n !in OldRoles(st))
            && (forall n | n in f.roles && n !in RoleNames(c.roles) :: f.roles[n] == st.roles[n])
            && (forall n | n !in UserNames(c.users) :: n in f.users <==> n in st.users && n !in OldUsers(st))
            && (forall n | n in f.users && n !in UserNames(c.users) ::
                  f.users[n] == st.users[n].(roles := st.users[n].roles - (OldRoles(st) + RoleNames(c.roles))))
  {
    FinalOutside(st, c, end);
    FinalInside(st, c, end);
  }

  lemma {:induction false} FinalInside(st: Store, c: ACLConfig, end: PrefixEnd)
    requires Valid(c) && ModesKnown(c.roles) && st.config != Some(c)
    ensures Configured(Final(st, c, end), c, end)
  {
    EntriesConfigured(Final(st, c, end), c, end);
  }

  lemma {:induction false} EntriesConfigured(f: Store, c: ACLConfig, end: PrefixEnd)
    requires Valid(c) && ModesKnown(c.roles) && f.config == Some(c)
    requires forall n | n in RoleMap(c.roles, end) :: n in f.roles && f.roles[n] == RoleMap(c.roles, end)[n]
    requires forall n | n in UserMap(c.users) :: n in f.users && f.users[n] == UserMap(c.users)[n]
    ensures Configured(f, c, end)
  {
    forall i | 0 <= i < |c.roles|
      ensures c.roles[i].name in f.roles && GrantsAre(f.roles[c.roles[i].name], c.roles[i].permissions, end)
    {
      RoleMapAt(c.roles, end, i);
      LastGrantWins(c.roles[i].permissions, end);
    }
    forall i | 0 <= i < |c.users| ensures c.users[i].name in f.users && AccountIs(f.users[c.users[i].name], c.users[i]) {
      UserMapAt(c.users, i);
    }
  }

  // ---- what was applied without an error -------------------------------------------------------------------

  lemma {:induction false} PermissionsApplied(n: string, perms: seq<Permission>, end: PrefixEnd, st: Store)
    requires n in st.roles && Run(PermissionOps(n, perms, end), st).ok
    ensures forall k | 0 <= k < |perms| :: ParseMode(perms[k].mode).Some?
    ensures var t := Run(PermissionOps(n, perms, end), st).store;
            n in t.roles && t.roles[n] == AddGrants(st.roles[n], perms, end)
    decreases |perms|
  {
    if perms != [] {
      RunOne(PermissionOp(n, perms[0], end), PermissionOps(n, perms[1..], end), st);
      PermissionsApplied(n, perms[1..], end, Step(PermissionOp(n, perms[0], end), st).value);
    }
  }

  /** A role that was applied without an error has the grants of its permissions. */
  lemma {:induction false} RoleApplied(r: Role, end: PrefixEnd, st: Store)
    requires Run(RoleOps(r, end), st).ok
    ensures var t := Run(RoleOps(r, end), st).store;
            r.name in t.roles && GrantsAre(t.roles[r.name], r.permissions, end)
  {
    var n, perms := r.name, PermissionOps(r.name, r.permissions, end);
    assert RoleOps(r, end) == [DropRole(n)] + ([AddRole(n)] + perms);
    RunOne(DropRole(n), [AddRole(n)] + perms, st);
    var t := Step(DropRole(n), st).value;
    RunOne(AddRole(n), perms, t);
    PermissionsApplied(n, r.permissions, end, Step(AddRole(n), t).value);
    LastGrantWins(r.permissions, end);
  }

  lemma {:induction false} RolesGranted(n: string, roles: seq<string>, st: Store)
    requires n in st.users && Run(GrantRoleOps(n, roles), st).ok
    ensures var t := Run(GrantRoleOps(n, roles), st).store;
            && n in t.users && t.users[n].password == st.users[n].password
            && forall r :: r in t.users[n].roles <==> r in st.users[n].roles || r in roles
    decreases |roles|
  {
    if roles != [] {
      RunOne(GrantRole(n, roles[0]), GrantRoleOps(n, roles[1..]), st);
      RolesGranted(n, roles[1..], Step(GrantRole(n, roles[0]), st).value);
      assert roles == [roles[0]] + roles[1..];
    }
  }

  /** A user that was applied without an error has the configured account. */
  lemma {:induction false} UserApplied(u: User, st: Store)
    requires Run(UserOps(u), st).ok
    ensures var t := Run(UserOps(u), st).store;
            u.name in t.users && AccountIs(t.users[u.name], u)
  {
    var n, grants := u.name, GrantRoleOps(u.name, u.roles);
    assert UserOps(u) == [DropUser(n)] + ([AddUser(n, Password(u))] + grants);
    RunOne(DropUser(n), [AddUser(n, Password(u))] + grants, st);
    var t := Step(DropUser(n), st).value;
    RunOne(AddUser(n, Password(u)), grants, t);
    RolesGranted(n, u.roles, Step(AddUser(n, Password(u)), t).value);
  }

  /** A configuration that was applied without an error is in the store as configured. */
  lemma {:induction false} ConfigApplied(c: ACLConfig, end: PrefixEnd, st: Store)
    requires RootReady(st) && Valid(c) && Run(ApplyOps(c, end), st).ok
    ensures Configured(Run(ApplyOps(c, end), st).store, c, end)
  {
    if !Deployable(c, st.self) {
      var op := UndeployableOp(c, end, st.self);
      var k :| 0 <= k < |ApplyOps(c, end)| && ApplyOps(c, end)[k] == op;
      FailsSomewhere(ApplyOps(c, end), k, st);
      assert false;
    }
    ApplyRun(c, end, st);
    EntriesConfigured(Applied(st, c, end), c, end);
  }

  /** Idempotent: applying the configuration once more to its own result changes nothing, and a second
      reconciliation does not even try. */
  lemma {:induction false} ReapplyChangesNothing(st: Store, c: ACLConfig, end: PrefixEnd)
    requires RootReady(st) && RecordedFree(st) && Valid(c) && Deployable(c, st.self) && st.config != Some(c)
    ensures Run(ApplyOps(c, end), Final(st, c, end)) == Outcome(Final(st, c, end), true)
    ensures ReconcileOps(Final(st, c, end), c, end) == [Enter]
    ensures Run([Enter], Final(st, c, end)) == Outcome(Final(st, c, end), true)
  {
    FinalReady(st, c, end);
    ApplyRun(c, end, Final(st, c, end));
    AppliedToFinal(st, c, end);
    assert [Enter] + [] == [Enter];
    RunOne(Enter, [], Final(st, c, end));
  }

  lemma {:induction false} AppliedToFinal(st: Store, c: ACLConfig, end: PrefixEnd)
    requires st.config != Some(c)
    ensures Applied(Final(st, c, end), c, end) == Final(st, c, end)
  {
    var r, u := RoleNames(c.roles), UserNames(c.users);
    var ro, uo := OldRoles(st) + r, OldUsers(st) + u;
    Reinstalled(st.roles - ro, RoleMap(c.roles, end));
    AccountsReinstalled(st.users - uo, ro, r, UserMap(c.users));
  }

  lemma {:induction false} Reinstalled<T>(m: map<string, T>, n: map<string, T>)
    ensures (m + n - n.Keys) + n == m + n
  {
  }

  lemma {:induction false} AccountsReinstalled(m: map<string, Account>, ro: set<string>, r: set<string>,
                                            n: map<string, Account>)
    requires r <= ro
    ensures (Strip(Strip(m, ro) + n, r) - n.Keys) + n == Strip(m, ro) + n
  {
    var o := Strip(m, ro);
    forall x | x in o ensures o[x].roles - r == o[x].roles {}
    assert (Strip(o + n, r) - n.Keys) + n == o + n;
  }

  lemma {:induction false} FirstThree(st: Store, c: ACLConfig, end: PrefixEnd)
    requires st.config == None && c.roles != []
    ensures var n := c.roles[0].name;
            |ReconcileOps(st, c, end)| >= 3 && ReconcileOps(st, c, end)[..3] == [Enter] + ([DropRole(n), AddRole(n)] + [])
  {
    NothingFirst(ApplyOps(c, end));
    assert |ApplyOps(c, end)| >= 2 && ApplyOps(c, end)[..2] == [DropRole(c.roles[0].name), AddRole(c.roles[0].name)];
    TakeFirst(Enter, ApplyOps(c, end), 3);
  }

  /** With a different target the second time, what the cut run had created is left behind. */
  lemma {:induction false} OtherTargetLeavesOrphan(st: Store, first: ACLConfig, second: ACLConfig, end: PrefixEnd)
    requires RootReady(st) && st.config == None && Valid(second) && Deployable(second, st.self) && first.roles != []
    requires first.roles[0].name != "" && first.roles[0].name !in st.roles && first.roles[0].name !in RoleNames(second.roles)
    ensures |ReconcileOps(st, first, end)| >= 3
    ensures var orphan, cut := first.roles[0].name, After(ReconcileOps(st, first, end), 3, st);
            && orphan in Run(ReconcileOps(cut, second, end), cut).store.roles
            && orphan !in Run(ReconcileOps(st, second, end), st).store.roles
  {
    var n, ops := first.roles[0].name, ReconcileOps(st, first, end);
    var cut := st.(roles := st.roles[n := map[]]);
    FirstThree(st, first, end);
    RunOne(Enter, [DropRole(n), AddRole(n)] + [], st);
    RunTwo(DropRole(n), AddRole(n), [], st, st, cut);
    ReconcileExact(cut, second, end);
    ReconcileExact(st, second, end);
  }

  /** Whether a rerun with another target repairs a cut depends on what the cut run did outside of what
      that target names. */
  lemma {:induction false} OtherTargetExactly(st: Store, cut: Store, c: ACLConfig, end: PrefixEnd)
    requires RootReady(st) && RootReady(cut) && cut.self == st.self && st.config == None && cut.config == None
    requires Valid(c) && Deployable(c, st.self)
    ensures Run(ReconcileOps(cut, c, end), cut) == Run(ReconcileOps(st, c, end), st)
            <==> Outside(cut, RoleNames(c.roles), UserNames(c.users)) == Outside(st, RoleNames(c.roles), UserNames(c.users))
  {
    ReconcileExact(st, c, end);
    ReconcileExact(cut, c, end);
    var r, u := RoleNames(c.roles), UserNames(c.users);
    assert {} + r == r && {} + u == u;
    SameRest(Outside(cut, r, u).roles, Outside(st, r, u).roles, RoleMap(c.roles, end));
    SameRest(Outside(cut, r, u).users, Outside(st, r, u).users, UserMap(c.users));
  }

  lemma {:induction false} SameRest<T>(a: map<string, T>, b: map<string, T>, m: map<string, T>)
    requires a.Keys !! m.Keys && b.Keys !! m.Keys
    ensures a + m == b + m <==> a == b
  {
    if a + m == b + m {
      forall x ensures x in a <==> x in b { assert x in a + m <==> x in b + m; }
      forall x | x in a ensures a[x] == b[x] { assert (a + m)[x] == (b + m)[x]; }
    }
  }

  /** An operation of a run that touches only new names leaves everything else alone. */
  predicate Extends(t: Store, st: Store) {
    && (forall n | n in st.roles :: n in t.roles && t.roles[n] == st.roles[n])
    && (forall n | n in st.users :: n in t.users && t.users[n] == st.users[n])
  }

  predicate IsNew(st: Store, r: set<string>, u: set<string>) {
    st.roles.Keys !! r && st.users.Keys !! u && forall n | n in st.users :: st.users[n].roles !! r
  }

  lemma {:induction false} RunExtends(ops: seq<Op>, st: Store, t: Store, r: set<string>, u: set<string>)
    requires AllTouch(ops, r, u) && IsNew(st, r, u) && Extends(t, st)
    ensures Extends(Run(ops, t).store, st)
    decreases |ops|
  {
    if ops != [] {
      assert Touches(ops[0], r, u);
      match Step(ops[0], t) {
        case None =>
        case Some(v) =>
          StepExtends(ops[0], st, t, r, u);
          RunExtends(ops[1..], st, v, r, u);
      }
    }
  }

  lemma {:induction false} StepExtends(op: Op, st: Store, t: Store, r: set<string>, u: set<string>)
    requires Touches(op, r, u) && IsNew(st, r, u) && Extends(t, st) && Step(op, t).Some?
    ensures Extends(Step(op, t).value, st)
  {
    var v := Step(op, t).value;
    if op.DropRole? && op.name in t.roles {
      forall n | n in st.users ensures v.users[n] == st.users[n] {
        assert op.name in r && op.name !in st.users[n].roles;
        assert st.users[n].roles - {op.name} == st.users[n].roles;
      }
    }
  }

  /** For a first target with new names only, cut anywhere before it is recorded: a rerun with another
      target reaches what it would have reached without the first iff that target names everything that
      the cut run has created. */
  lemma {:induction false} OtherTargetRepairs(st: Store, first: ACLConfig, second: ACLConfig, end: PrefixEnd, k: nat)
    requires RootReady(st) && st.config == None && IsNew(st, RoleNames(first.roles), UserNames(first.users))
    requires k < |ReconcileOps(st, first, end)| && Valid(second) && Deployable(second, st.self)
    ensures var cut := After(ReconcileOps(st, first, end), k, st);
            Run(ReconcileOps(cut, second, end), cut) == Run(ReconcileOps(st, second, end), st)
            <==> cut.roles.Keys - st.roles.Keys <= RoleNames(second.roles) && cut.users.Keys - st.users.Keys <= UserNames(second.users)
  {
    var ops, cut := ReconcileOps(st, first, end), After(ReconcileOps(st, first, end), k, st);
    var r, u := RoleNames(first.roles), UserNames(first.users);
    NewWork(st, first, end, k);
    RunOutside(ops[..k], st, r, u);
    RunExtends(ops[..k], st, st, r, u);
    TouchSpares(ops[..k], r, u, st.self);
    RunKeepsRoot(ops[..k], st);
    OtherTargetExactly(st, cut, second, end);
    SameOutside(st, cut, RoleNames(second.roles), UserNames(second.users));
  }

  /** All operations before the last one touch only what the configuration names. */
  lemma {:induction false} NewWork(st: Store, c: ACLConfig, end: PrefixEnd, k: nat)
    requires st.config == None && k < |ReconcileOps(st, c, end)|
    ensures AllTouch(ReconcileOps(st, c, end)[..k], RoleNames(c.roles), UserNames(c.users))
  {
    var r, u := RoleNames(c.roles), UserNames(c.users);
    var work := [Enter] + (RolesOps(c.roles, end) + UsersOps(c.users));
    RolesTouch(c.roles, end, r, u);
    UsersTouch(c.users, r, u);
    TouchConcat(RolesOps(c.roles, end), UsersOps(c.users), r, u);
    TouchConcat([Enter], RolesOps(c.roles, end) + UsersOps(c.users), r, u);
    LastIsPut(st, c, end);
    TouchFront(work, [PutConfig(c)], k, r, u);
  }

  lemma {:induction false} LastIsPut(st: Store, c: ACLConfig, end: PrefixEnd)
    requires st.config == None
    ensures ReconcileOps(st, c, end) == [Enter] + (RolesOps(c.roles, end) + UsersOps(c.users)) + [PutConfig(c)]
  {
    NothingFirst(ApplyOps(c, end));
    assert Changes(st, c, end) == ApplyOps(c, end);
    Associate([Enter], RolesOps(c.roles, end) + UsersOps(c.users), [PutConfig(c)]);
  }

  lemma {:induction false} NothingFirst(ops: seq<Op>)
    ensures [] + ops == ops
  {
  }

  lemma {:induction false} Associate(a: seq<Op>, b: seq<Op>, c: seq<Op>)
    ensures a + (b + c) == a + b + c
  {
  }

  lemma {:induction false} TouchConcat(a: seq<Op>, b: seq<Op>, r: set<string>, u: set<string>)
    requires AllTouch(a, r, u) && AllTouch(b, r, u)
    ensures AllTouch(a + b, r, u)
  {
  }

  lemma {:induction false} TouchFront(a: seq<Op>, b: seq<Op>, k: nat, r: set<string>, u: set<string>)
    requires AllTouch(a, r, u) && k <= |a|
    ensures AllTouch((a + b)[..k], r, u)
  {
  }

  lemma {:induction false} SameOutside(st: Store, t: Store, r: set<string>, u: set<string>)
    requires Extends(t, st) && t.self == st.self
    ensures Outside(t, r, u) == Outside(st, r, u) <==> t.roles.Keys - st.roles.Keys <= r && t.users.Keys - st.users.Keys <= u
  {
    if t.roles.Keys - st.roles.Keys <= r && t.users.Keys - st.users.Keys <= u {
      assert t.roles - r == st.roles - r;
      assert Strip(t.users - u, r) == Strip(st.users - u, r);
    }
    if Outside(t, r, u) == Outside(st, r, u) {
      forall n | n in t.roles && n !in st.roles ensures n in r { assert n in t.roles - r <==> n in st.roles - r; }
      forall n | n in t.users && n !in st.users ensures n in u {
        assert n in Strip(t.users - u, r) <==> n in Strip(st.users - u, r);
      }
    }
  }

  function PlainPermissions(perms: seq<Permission>): seq<Permission> {
    seq(|perms|, i requires 0 <= i < |perms| => perms[i].(rangeEnd := ""))
  }

  /** The roles without any configured range end. */
  function PlainRoles(roles: seq<Role>): seq<Role> {
    seq(|roles|, i requires 0 <= i < |roles| => roles[i].(permissions := PlainPermissions(roles[i].permissions)))
  }

  lemma {:induction false} PermissionsPlain(n: string, perms: seq<Permission>, end: PrefixEnd)
    ensures PermissionOps(n, perms, end) == PermissionOps(n, PlainPermissions(perms), end)
    decreases |perms|
  {
    if perms != [] {
      assert PlainPermissions(perms)[1..] == PlainPermissions(perms[1..]);
      PermissionsPlain(n, perms[1..], end);
    }
  }

  lemma {:induction false} RolesPlain(roles: seq<Role>, end: PrefixEnd)
    ensures RolesOps(roles, end) == RolesOps(PlainRoles(roles), end)
    decreases |roles|
  {
    if roles != [] {
      assert PlainRoles(roles)[1..] == PlainRoles(roles[1..]);
      PermissionsPlain(roles[0].name, roles[0].permissions, end);
      RolesPlain(roles[1..], end);
    }
  }

  /** The configured range ends have no effect, whatever the documentation says: the operations that are
      sent are the same without them, up to the configuration that is recorded. */
  lemma {:induction false} RangeEndIgnored(c: ACLConfig, end: PrefixEnd)
    ensures var plain := c.(roles := PlainRoles(c.roles));
            && |ApplyOps(plain, end)| == |ApplyOps(c, end)|
            && forall k | 0 <= k < |ApplyOps(c, end)| - 1 :: ApplyOps(plain, end)[k] == ApplyOps(c, end)[k]
  {
    RolesPlain(c.roles, end);
  }
}
