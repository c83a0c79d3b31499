/** ACL configurations: what Validate accepts, and the store operations that remove and apply one. */
module Acl {
  import opened Wrappers

  datatype Permission = Permission(mode: string, key: string, rangeEnd: string, prefix: bool)
  datatype Role = Role(name: string, permissions: seq<Permission>)
  datatype User = User(name: string, password: string, roles: seq<string>)
  datatype ACLConfig = ACLConfig(rootPassword: Option<string>, roles: seq<Role>, users: seq<User>)

  const ROOT := "root"

  function RoleNames(roles: seq<Role>): set<string> { set i | 0 <= i < |roles| :: roles[i].name }
  function UserNames(users: seq<User>): set<string> { set i | 0 <= i < |users| :: users[i].name }

  // ---- Validate ----------------------------------------------------------------------

  predicate PermissionOk(p: Permission) { p.mode != "" && p.key != "" }

  predicate RoleOk(r: Role) {
    r.name != "" && r.permissions != [] && forall k | 0 <= k < |r.permissions| :: PermissionOk(r.permissions[k])
  }

  predicate UserOk(u: User, roleNames: set<string>) {
    u.name != "" && forall k | 0 <= k < |u.roles| :: u.roles[k] in roleNames || u.roles[k] == ROOT
  }

  predicate UniqueRoles(roles: seq<Role>) { forall i, j | 0 <= i < j < |roles| :: roles[i].name != roles[j].name }
  predicate UniqueUsers(users: seq<User>) { forall i, j | 0 <= i < j < |users| :: users[i].name != users[j].name }

  predicate Valid(c: ACLConfig) {
    && (forall i | 0 <= i < |c.roles| :: RoleOk(c.roles[i])) && UniqueRoles(c.roles)
    && (forall i | 0 <= i < |c.users| :: UserOk(c.users[i], RoleNames(c.roles))) && UniqueUsers(c.users)
  }

  datatype ValidationError = CertAuthOff | EmptyName | EmptyPermissions | EmptyMode | EmptyKey | Duplicate | UnknownRole

  // The first problem, in the order of the checks; None if there is none.

  function PermissionError(p: Permission): Option<ValidationError> {
    if p.mode == "" then Some(EmptyMode) else if p.key == "" then Some(EmptyKey) else None
  }

  function PermissionsError(perms: seq<Permission>): (e: Option<ValidationError>)
    ensures e == None <==> forall k | 0 <= k < |perms| :: PermissionOk(perms[k])
  {
    if perms == [] then None
    else
      var e := PermissionsError(perms[..|perms| - 1]);
      if e.Some? then e else PermissionError(perms[|perms| - 1])
  }

  lemma {:induction false} PermissionsPrefix(perms: seq<Permission>, k: nat)
    requires k <= |perms| && PermissionsError(perms[..k]).Some?
    ensures PermissionsError(perms) == PermissionsError(perms[..k])
  {
    if k == |perms| {
      assert perms[..k] == perms;
    } else {
      assert perms[..|perms| - 1][..k] == perms[..k];
      PermissionsPrefix(perms[..|perms| - 1], k);
    }
  }

  function RoleError(r: Role, taken: set<string>): Option<ValidationError> {
    if r.name == "" then Some(EmptyName)
    else if r.permissions == [] then Some(EmptyPermissions)
    else if PermissionsError(r.permissions).Some? then PermissionsError(r.permissions)
    else if r.name in taken then Some(Duplicate)
    else None
  }

  function RolesError(roles: seq<Role>): (e: Option<ValidationError>)
    ensures e == None <==> (forall i | 0 <= i < |roles| :: RoleOk(roles[i])) && UniqueRoles(roles)
  {
    if roles == [] then None
    else
      var e := RolesError(roles[..|roles| - 1]);
      if e.Some? then e else RoleError(roles[|roles| - 1], RoleNames(roles[..|roles| - 1]))
  }

  lemma {:induction false} RolesPrefix(roles: seq<Role>, k: nat)
    requires k <= |roles| && RolesError(roles[..k]).Some?
    ensures RolesError(roles) == RolesError(roles[..k])
  {
    if k == |roles| {
      assert roles[..k] == roles;
    } else {
      assert roles[..|roles| - 1][..k] == roles[..k];
      RolesPrefix(roles[..|roles| - 1], k);
    }
  }

  function UserRolesError(roles: seq<string>, roleNames: set<string>): (e: Option<ValidationError>)
    ensures e == None <==> forall k | 0 <= k < |roles| :: roles[k] in roleNames || roles[k] == ROOT
  {
    if exists k | 0 <= k < |roles| :: roles[k] !in roleNames && roles[k] != ROOT then Some(UnknownRole) else None
  }

  function UserError(u: User, roleNames: set<string>, taken: set<string>): Option<ValidationError> {
    if u.name == "" then Some(EmptyName)
    else if UserRolesError(u.roles, roleNames).Some? then Some(UnknownRole)
    else if u.name in taken then Some(Duplicate)
    else None
  }

  function UsersError(users: seq<User>, roleNames: set<string>): (e: Option<ValidationError>)
    ensures e == None <==> (forall i | 0 <= i < |users| :: UserOk(users[i], roleNames)) && UniqueUsers(users)
  {
    if users == [] then None
    else
      var e := UsersError(users[..|users| - 1], roleNames);
      if e.Some? then e else UserError(users[|users| - 1], roleNames, UserNames(users[..|users| - 1]))
  }

  lemma {:induction false} UsersPrefix(users: seq<User>, roleNames: set<string>, k: nat)
    requires k <= |users| && UsersError(users[..k], roleNames).Some?
    ensures UsersError(users, roleNames) == UsersError(users[..k], roleNames)
  {
    if k == |users| {
      assert users[..k] == users;
    } else {
      assert users[..|users| - 1][..k] == users[..k];
      UsersPrefix(users[..|users| - 1], roleNames, k);
    }
  }

  method ValidatePermissions(perms: seq<Permission>) returns (err: Option<ValidationError>)
    ensures err == PermissionsError(perms)
  {
    for k := 0 to |perms|
      invariant PermissionsError(perms[..k]) == None
    {
      assert perms[..k + 1][..k] == perms[..k];
      if PermissionError(perms[k]).Some? { PermissionsPrefix(perms, k + 1); }
      if perms[k].mode == "" { return Some(EmptyMode); }
      if perms[k].key == "" { return Some(EmptyKey); }
    }
    assert perms[..|perms|] == perms;
    err := None;
  }

  /** The first error in the roles; without one, the names of all of them. */
  method ValidateRoles(roles: seq<Role>) returns (err: Option<ValidationError>, roleNames: set<string>)
    ensures err == RolesError(roles)
    ensures err == None ==> roleNames == RoleNames(roles)
  {
    roleNames := {};
    for i := 0 to |roles|
      invariant RolesError(roles[..i]) == None && roleNames == RoleNames(roles[..i])
    {
      var role := roles[i];
      assert roles[..i + 1][..i] == roles[..i];
      if RoleError(role, roleNames).Some? { RolesPrefix(roles, i + 1); }
      if role.name == "" { return Some(EmptyName), roleNames; }
      if |role.permissions| == 0 { return Some(EmptyPermissions), roleNames; }
      err := ValidatePermissions(role.permissions);
      if err.Some? { return; }
      if role.name in roleNames { return Some(Duplicate), roleNames; }
      roleNames := roleNames + {role.name};
      assert roleNames == RoleNames(roles[..i + 1]);
    }
    assert roles[..|roles|] == roles;
    err := None;
  }

  method ValidateUserRoles(roles: seq<string>, roleNames: set<string>) returns (err: Option<ValidationError>)
    ensures err == UserRolesError(roles, roleNames)
  {
    for k := 0 to |roles|
      invariant forall m | 0 <= m < k :: roles[m] in roleNames || roles[m] == ROOT
    {
      if roles[k] !in roleNames && roles[k] != ROOT { return Some(UnknownRole); }
    }
    err := None;
  }

  method ValidateUsers(users: seq<User>, roleNames: set<string>) returns (err: Option<ValidationError>)
    ensures err == UsersError(users, roleNames)
  {
    var userNames := {};
    for i := 0 to |users|
      invariant UsersError(users[..i], roleNames) == None && userNames == UserNames(users[..i])
    {
      var user := users[i];
      assert users[..i + 1][..i] == users[..i];
      if UserError(user, roleNames, userNames).Some? { UsersPrefix(users, roleNames, i + 1); }
      if user.name == "" { return Some(EmptyName); }
      err := ValidateUserRoles(user.roles, roleNames);
      if err.Some? { return; }
      if user.name in userNames { return Some(Duplicate); }
      userNames := userNames + {user.name};
      assert userNames == UserNames(users[..i + 1]);
    }
    assert users[..|users|] == users;
    err := None;
  }

  /** Validate accepts exactly the configurations without an ACL, and the valid ACLs under client
      certificates; otherwise it reports the first problem, the roles before the users. */
  method Validate(certAuth: bool, acl: Option<ACLConfig>) returns (err: Option<ValidationError>)
    ensures err == None <==> (acl.Some? ==> certAuth && Valid(acl.value))
    ensures err == Some(CertAuthOff) <==> acl.Some? && !certAuth
    ensures err == None && acl.Some? ==>
              && (forall i | 0 <= i < |acl.value.roles| :: acl.value.roles[i].name != "" && |acl.value.roles[i].permissions| > 0)
              && (forall i, k | 0 <= i < |acl.value.roles| && 0 <= k < |acl.value.roles[i].permissions| ::
                    acl.value.roles[i].permissions[k].mode != "" && acl.value.roles[i].permissions[k].key != "")
              && (forall i, j | 0 <= i < j < |acl.value.roles| :: acl.value.roles[i].name != acl.value.roles[j].name)
              && (forall i | 0 <= i < |acl.value.users| :: acl.value.users[i].name != "")
              && (forall i, k | 0 <= i < |acl.value.users| && 0 <= k < |acl.value.users[i].roles| ::
                    acl.value.users[i].roles[k] == "root" ||
                    exists j :: 0 <= j < |acl.value.roles| && acl.value.roles[j].name == acl.value.users[i].roles[k])
              && (forall i, j | 0 <= i < j < |acl.value.users| :: acl.value.users[i].name != acl.value.users[j].name)
    ensures err.Some? && certAuth ==>
              || (exists k :: 0 <= k < |acl.value.roles| && RoleFault(err.value, acl.value.roles, k))
              || (exists k :: 0 <= k < |acl.value.users| && UserFault(err.value, acl.value.users, RoleNames(acl.value.roles), k))
    ensures acl.Some? ==>
              err == if !certAuth then Some(CertAuthOff)
                     else if RolesError(acl.value.roles).Some? then RolesError(acl.value.roles)
                     else UsersError(acl.value.users, RoleNames(acl.value.roles))
  {
    if acl.None? { return None; }
    if !certAuth { return Some(CertAuthOff); }
    var roleNames;
    err, roleNames := ValidateRoles(acl.value.roles);
    if err.Some? {
      ghost var k := FirstRoleFault(acl.value.roles);
      return;
    }
    err := ValidateUsers(acl.value.users, roleNames);
    if err.Some? { ghost var k := FirstUserFault(acl.value.users, roleNames); }
  }

  // ---- which error it is ----------------------------------------------------------------

  /** The first permission without a mode or a key. */
  predicate FaultyAt(perms: seq<Permission>, j: int) {
    && 0 <= j < |perms| && (perms[j].mode == "" || perms[j].key == "")
    && forall i | 0 <= i < j :: perms[i].mode != "" && perms[i].key != ""
  }

  lemma {:induction false} FirstBadPermission(perms: seq<Permission>) returns (k: nat)
    requires PermissionsError(perms).Some?
    ensures FaultyAt(perms, k)
    ensures PermissionsError(perms) == Some(if perms[k].mode == "" then EmptyMode else EmptyKey)
  {
    var n := |perms| - 1;
    if PermissionsError(perms[..n]).Some? { k := FirstBadPermission(perms[..n]); } else { k := n; }
  }

  /** What is wrong with role `k`, if nothing is wrong with those before it. */
  ghost predicate RoleFault(e: ValidationError, roles: seq<Role>, k: nat)
    requires k < |roles|
  {
    var r := roles[k];
    match e
    case EmptyName => r.name == ""
    case EmptyPermissions => r.name != "" && r.permissions == []
    case EmptyMode => r.name != "" && exists j :: FaultyAt(r.permissions, j) && r.permissions[j].mode == ""
    case EmptyKey => r.name != "" && exists j :: FaultyAt(r.permissions, j) && r.permissions[j].mode != ""
    case Duplicate => RoleOk(r) && exists j :: 0 <= j < k && roles[j].name == r.name
    case _ => false
  }

  /** The error in the roles is that of the first role with one. */
  lemma {:induction false} FirstRoleFault(roles: seq<Role>) returns (k: nat)
    requires RolesError(roles).Some?
    ensures k < |roles| && RoleFault(RolesError(roles).value, roles, k)
    ensures UniqueRoles(roles[..k]) && forall i | 0 <= i < k :: RoleOk(roles[i])
  {
    var n := |roles| - 1;
    if RolesError(roles[..n]).Some? {
      k := FirstRoleFault(roles[..n]);
      assert roles[..n][..k] == roles[..k];
    } else {
      k := n;
      if PermissionsError(roles[n].permissions).Some? {
        var j := FirstBadPermission(roles[n].permissions);
        assert FaultyAt(roles[n].permissions, j);
      }
    }
  }

  /** What is wrong with user `k`, if nothing is wrong with those before it. */
  ghost predicate UserFault(e: ValidationError, users: seq<User>, roleNames: set<string>, k: nat)
    requires k < |users|
  {
    var u := users[k];
    match e
    case EmptyName => u.name == ""
    case UnknownRole => u.name != "" && exists j :: 0 <= j < |u.roles| && u.roles[j] !in roleNames && u.roles[j] != "root"
    case Duplicate => UserOk(u, roleNames) && exists j :: 0 <= j < k && users[j].name == u.name
    case _ => false
  }

  /** The error in the users is that of the first user with one. */
  lemma {:induction false} FirstUserFault(users: seq<User>, roleNames: set<string>) returns (k: nat)
    requires UsersError(users, roleNames).Some?
    ensures k < |users| && UserFault(UsersError(users, roleNames).value, users, roleNames, k)
    ensures UniqueUsers(users[..k]) && forall i | 0 <= i < k :: UserOk(users[i], roleNames)
  {
    var n := |users| - 1;
    if UsersError(users[..n], roleNames).Some? {
      k := FirstUserFault(users[..n], roleNames);
      assert users[..n][..k] == users[..k];
    } else {
      k := n;
    }
  }

  // ---- the store -----------------------------------------------------------------------

  datatype Mode = Read | Write | ReadWrite

  /** The permissions of a role: one mode for each (key, range end). */
  type Grants = map<(string, string), Mode>

  datatype Account = Account(password: Option<string>, roles: set<string>)

  /** `self` is the account the operator acts as: the common name of its client certificate. */
  datatype Store = Store(roles: map<string, Grants>, users: map<string, Account>, config: Option<ACLConfig>, self: string)

  /** The operator's own account exists and has root. */
  predicate Authorized(st: Store) { st.self in st.users && ROOT in st.users[st.self].roles }

  /** clientv3.GetPrefixRangeEnd. */
  type PrefixEnd = string -> string

  function Lower(s: string): string {
    if s == "" then ""
    else [if 'A' <= s[0] <= 'Z' then 'a' + (s[0] - 'A') else s[0]] + Lower(s[1..])
  }

  function ParseMode(s: string): Option<Mode> {
    if Lower(s) == "read" then Some(Read)
    else if Lower(s) == "write" then Some(Write)
    else if Lower(s) == "readwrite" then Some(ReadWrite)
    else None
  }

  /** Removes the roles in `r` from every account. */
  function Strip(users: map<string, Account>, r: set<string>): map<string, Account> {
    map u | u in users :: users[u].(roles := users[u].roles - r)
  }

  /** The effective steps of the functions. Enter stands for enableACL, which finds the operator's account
      with root and returns; DropRole and DropUser for a deletion that tolerates a missing entry; BadMode
      for the error on an unknown permission mode. */
  datatype Op =
    | Enter
    | DropRole(name: string)
    | AddRole(name: string)
    | Grant(name: string, range: (string, string), mode: Mode)
    | BadMode
    | DropUser(name: string)
    | AddUser(name: string, password: Option<string>)
    | GrantRole(name: string, role: string)
    | PutConfig(config: ACLConfig)
    | DeleteConfig

  /** What an authorized operation does; None is an error. Deleting root is refused; granting root is
      always possible. Any other account can be deleted, the operator's own included. */
  function Effect(op: Op, st: Store): Option<Store> {
    match op
    case Enter => Some(st)
    case DropRole(n) =>
      if n !in st.roles then Some(st)
      else if n == ROOT then None
      else Some(st.(roles := st.roles - {n}, users := Strip(st.users, {n})))
    case AddRole(n) =>
      if n == "" || n in st.roles then None else Some(st.(roles := st.roles[n := map[]]))
    case Grant(n, range, mode) =>
      if n !in st.roles then None else Some(st.(roles := st.roles[n := st.roles[n][range := mode]]))
    case BadMode => None
    case DropUser(n) =>
      if n !in st.users then Some(st) else if n == ROOT then None else Some(st.(users := st.users - {n}))
    case AddUser(n, password) =>
      if n == "" || n in st.users then None else Some(st.(users := st.users[n := Account(password, {})]))
    case GrantRole(n, role) =>
      if n !in st.users || (role != ROOT && role !in st.roles) then None
      else Some(st.(users := st.users[n := st.users[n].(roles := st.users[n].roles + {role})]))
    case PutConfig(c) => Some(st.(config := Some(c)))
    case DeleteConfig => Some(st.(config := None))
  }

  /** The answer of the store to one operation of the operator: an error, which leaves the store alone, also
      for every operation of an account that does not exist or does not have root. */
  function Step(op: Op, st: Store): Option<Store> { if Authorized(st) then Effect(op, st) else None }

  datatype Outcome = Outcome(store: Store, ok: bool)

  /** Carries out operations up to the first error. */
  function Run(ops: seq<Op>, st: Store): Outcome
    decreases |ops|
  {
    if ops == [] then Outcome(st, true)
    else
      match Step(ops[0], st)
      case None => Outcome(st, false)
      case Some(t) => Run(ops[1..], t)
  }

  // ---- the operations of applyACLConfig and removeACLConfig ---------------------------------

  function RangeOf(p: Permission, end: PrefixEnd): (string, string) {
    (p.key, if p.prefix then end(p.key) else "")
  }

  function PermissionOp(role: string, p: Permission, end: PrefixEnd): Op {
    match ParseMode(p.mode)
    case None => BadMode
    case Some(m) => Grant(role, RangeOf(p, end), m)
  }

  function PermissionOps(role: string, perms: seq<Permission>, end: PrefixEnd): seq<Op> {
    if perms == [] then [] else [PermissionOp(role, perms[0], end)] + PermissionOps(role, perms[1..], end)
  }

  function RoleOps(r: Role, end: PrefixEnd): seq<Op> {
    [DropRole(r.name), AddRole(r.name)] + PermissionOps(r.name, r.permissions, end)
  }

  function RolesOps(roles: seq<Role>, end: PrefixEnd): seq<Op> {
    if roles == [] then [] else RoleOps(roles[0], end) + RolesOps(roles[1..], end)
  }

  function GrantRoleOps(user: string, roles: seq<string>): seq<Op> {
    if roles == [] then [] else [GrantRole(user, roles[0])] + GrantRoleOps(user, roles[1..])
  }

  function Password(u: User): Option<string> { if u.password == "" then None else Some(u.password) }

  function UserOps(u: User): seq<Op> {
    [DropUser(u.name), AddUser(u.name, Password(u))] + GrantRoleOps(u.name, u.roles)
  }

  function UsersOps(users: seq<User>): seq<Op> {
    if users == [] then [] else UserOps(users[0]) + UsersOps(users[1..])
  }

  function ApplyOps(c: ACLConfig, end: PrefixEnd): seq<Op> {
    RolesOps(c.roles, end) + UsersOps(c.users) + [PutConfig(c)]
  }

  function DropUsersOps(users: seq<User>): seq<Op> {
    if users == [] then [] else [DropUser(users[0].name)] + DropUsersOps(users[1..])
  }

  function DropRolesOps(roles: seq<Role>): seq<Op> {
    if roles == [] then [] else [DropRole(roles[0].name)] + DropRolesOps(roles[1..])
  }

  function RemoveOps(c: ACLConfig): seq<Op> {
    DropUsersOps(c.users) + DropRolesOps(c.roles) + [DeleteConfig]
  }

  /** What there is to do for a target. */
  function Changes(st: Store, target: ACLConfig, end: PrefixEnd): seq<Op> {
    if st.config == Some(target) then []
    else (if st.config.Some? then RemoveOps(st.config.value) else []) + ApplyOps(target, end)
  }

  function ReconcileOps(st: Store, target: ACLConfig, end: PrefixEnd): seq<Op> { [Enter] + Changes(st, target, end) }
}
