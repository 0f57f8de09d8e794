/** The store behind the quote service (database.py): the three tables, an
    integer clock standing for `datetime.now(timezone.utc)`, and `init_db`,
    which drops everything and seeds the roles and the superadmin. */
module Database {
  import opened Models
  import opened Utils

  /** The permission list seeded for each role name; no other name has any. */
  function SeedPermissions(name: string): seq<string> {
    if name == "superadmin" then ["updateadmin"]
    else if name == "admin" then ["ban"]
    else if name == "user" then ["create_own_content", "update_own_content", "delete_own_content"]
    else []
  }

  /** The role table `init_db` writes, under the three keys the database chose. */
  function SeedRoles(superadmin: RoleId, admin: RoleId, user: RoleId): map<RoleId, Role> {
    map[superadmin := Role("superadmin", SeedPermissions("superadmin")),
        admin := Role("admin", SeedPermissions("admin")),
        user := Role("user", SeedPermissions("user"))]
  }

  ghost predicate RolesSeeded(roles: map<RoleId, Role>) {
    exists sa, ad, us :: sa != ad && sa != us && ad != us && roles == SeedRoles(sa, ad, us)
  }

  /** The superadmin row, with the fixed names and bio of database.py:66-73. */
  function SuperadminUser(email: string, password: string, roleId: RoleId): User {
    User("Rithipong", "Leanghirunkun", "superadmin", email, HashPassword(password), roleId)
  }

  /** The store right after a successful `init_db`. */
  ghost predicate Seeded(roles: map<RoleId, Role>, users: map<UserId, User>, contents: map<ContentId, Content>,
                         email: string, password: string) {
    && RolesSeeded(roles)
    && contents == map[]
    && |users| == 1
    && forall u :: u in users ==>
         && users[u] == SuperadminUser(email, password, users[u].roleId)
         && users[u].roleId in roles
         && roles[users[u].roleId].name == "superadmin"
  }

  /** Every timestamp is a past reading of the clock, and no row was updated
      before it was created. */
  ghost predicate TimestampsOrdered(contents: map<ContentId, Content>, clock: int) {
    forall c :: c in contents ==> contents[c].createdAt <= contents[c].updatedAt <= clock
  }

  datatype InitResult = Initialized | MissingSuperadminConfig

  class Db {
    var roles: map<RoleId, Role>
    var users: map<UserId, User>
    var contents: map<ContentId, Content>
    /** The current reading of the UTC clock. */
    var clock: int

    /** What the schema and the clock guarantee. */
    ghost predicate Valid()
      reads this
    {
      RoleNamesUnique(roles) && EmailsUnique(users) && TimestampsOrdered(contents, clock)
    }

    /** The foreign keys resolve. The handlers do not rely on it: they check
        both lookups and report a missing row. */
    ghost predicate Consistent()
      reads this
    {
      RolesResolve(users, roles) && CreatorsResolve(contents, users)
    }

    /** An empty database. */
    constructor (now: int)
      ensures roles == map[] && users == map[] && contents == map[] && clock == now
      ensures Valid() && Consistent()
    {
      roles, users, contents, clock := map[], map[], map[], now;
    }

    /** Time passes. */
    method Advance(now: int)
      requires Valid()
      requires clock <= now
      modifies this`clock
      ensures clock == now && Valid()
    {
      clock := now;
    }

    /** `add` and `commit` of a new user row under a fresh key. The
        handler has already checked the e-mail is unused, so the unique
        constraint holds. */
    method AddUser(u: User) returns (id: UserId)
      requires Valid()
      requires forall v :: v in users ==> users[v].email != u.email
      modifies this`users
      ensures id !in old(users) && users == old(users)[id := u]
      ensures Valid()
      ensures old(Consistent()) && u.roleId in roles ==> Consistent()
    {
      id := NewId(users.Keys);
      users := users[id := u];
    }

    /** `add` and `commit` of a new content row under a fresh key, with
        timestamps read from the clock. */
    method AddContent(c: Content) returns (id: ContentId)
      requires Valid()
      requires c.createdAt <= c.updatedAt <= clock
      modifies this`contents
      ensures id !in old(contents) && contents == old(contents)[id := c]
      ensures Valid()
      ensures old(Consistent()) && c.createdBy in users ==> Consistent()
    {
      id := NewId(contents.Keys);
      contents := contents[id := c];
    }

    /** `update({...})` and `commit` on one stored content row. */
    method SetContent(id: ContentId, c: Content)
      requires Valid()
      requires id in contents
      requires c.createdAt <= c.updatedAt <= clock
      modifies this`contents
      ensures contents == old(contents)[id := c]
      ensures Valid()
      ensures old(Consistent()) && c.createdBy in users ==> Consistent()
    {
      contents := contents[id := c];
    }

    /** `update({"role_id": ...})` and `commit` on one user row. */
    method SetUserRole(id: UserId, roleId: RoleId)
      requires Valid()
      requires id in users
      modifies this`users
      ensures users == old(users)[id := old(users)[id].(roleId := roleId)]
      ensures Valid()
      ensures old(Consistent()) && roleId in roles ==> Consistent()
    {
      users := users[id := users[id].(roleId := roleId)];
    }

    /** `init_db` with the SUPERADMIN_EMAIL / SUPERADMIN_PASSWORD settings.
        Without both settings database.py aborts as it is loaded, so nothing
        is touched. Otherwise every table is dropped and recreated, the three
        roles are added, then the superadmin. */
    method InitDb(superadminEmail: string, superadminPassword: string) returns (r: InitResult)
      modifies this`roles, this`users, this`contents
      ensures r == MissingSuperadminConfig <==> superadminEmail == [] || superadminPassword == []
      ensures r == MissingSuperadminConfig ==>
        roles == old(roles) && users == old(users) && contents == old(contents)
      ensures r == Initialized ==> Seeded(roles, users, contents, superadminEmail, superadminPassword)
      ensures r == Initialized ==> Valid() && Consistent()
    {
      if superadminEmail == [] || superadminPassword == [] {
        return MissingSuperadminConfig;
      }
      // drop_all, create_all
      roles, users, contents := map[], map[], map[];
      // add_all(roles), commit
      var sa := NewId({});
      var ad := NewId({sa});
      var us := NewId({sa, ad});
      roles := SeedRoles(sa, ad, us);
      assert RolesSeeded(roles);
      SeededRoleNames(roles);
      // the superadmin role was just added, so the lookup finds `sa`
      var su := NewId(users.Keys);
      users := users[su := SuperadminUser(superadminEmail, superadminPassword, sa)];
      r := Initialized;
    }
  }

  /** Three roles named `superadmin`, `admin` and `user`, no two alike, each
      with its seeded permission list. */
  lemma SeededRoleNames(roles: map<RoleId, Role>)
    requires RolesSeeded(roles)
    ensures |roles| == 3 && RoleNamesUnique(roles)
    ensures forall r :: r in roles ==> roles[r].name == "superadmin" || roles[r].name == "admin" || roles[r].name == "user"
    ensures exists r :: r in roles && roles[r].name == "superadmin"
    ensures exists r :: r in roles && roles[r].name == "admin"
    ensures exists r :: r in roles && roles[r].name == "user"
    ensures forall r :: r in roles ==> roles[r].permissions == SeedPermissions(roles[r].name)
  {
    var sa, ad, us :| sa != ad && sa != us && ad != us && roles == SeedRoles(sa, ad, us);
    assert roles[sa].name == "superadmin" && roles[ad].name == "admin" && roles[us].name == "user";
  }

  /** No token is in two seeded roles: the roles do not inherit from one
      another. */
  lemma SeededPermissionsDisjoint(roles: map<RoleId, Role>, a: RoleId, b: RoleId, token: string)
    requires RolesSeeded(roles)
    requires a in roles && b in roles && a != b
    ensures token in roles[a].permissions ==> token !in roles[b].permissions
  {
    SeededRoleNames(roles);
  }

  /** Against the seeded roles `check_permission` grants a user a token
      exactly when the seed table lists it for the user's role name: only
      `user` may write content, only `admin` may ban, only `superadmin` may
      change roles. */
  lemma SeededCheckPermission(roles: map<RoleId, Role>, u: User, token: string)
    requires RolesSeeded(roles)
    requires u.roleId in roles
    ensures CheckPermission(u, roles, token) <==> token in SeedPermissions(roles[u.roleId].name)
    ensures token == "ban" ==> (CheckPermission(u, roles, token) <==> roles[u.roleId].name == "admin")
    ensures token == "updateadmin" ==> (CheckPermission(u, roles, token) <==> roles[u.roleId].name == "superadmin")
    ensures token in SeedPermissions("user") ==> (CheckPermission(u, roles, token) <==> roles[u.roleId].name == "user")
  {
    SeededRoleNames(roles);
  }
}
