/** The request handlers of app.py. Each handler runs the same chain of
    early-return checks as app.py and then makes at most one change to
    the store or to the session; its outcome names the branch it left by. */
module App {
  import opened Models
  import opened Utils
  import opened Database

  /** One value per kind of response of the handlers. */
  datatype Outcome =
    | Ok                      // redirect to "/" or the listing
    | NotLoggedIn             // "You must be logged in ..." / "No user is logged in", 401
    | UserNotFound            // "User is not found", 404
    | RoleNotFound            // "Role is not found" / "Role user was not found", 404
    | UnauthorizedRole        // "Unauthorized Role", 401
    | UnauthorizedPermission  // "Unauthorized Permission", 401
    | QuoteRequired           // "Quote are required.", 400
    | NotFound                // "Quote not found" / "User not found", 404
    | TargetRoleLocked        // "Target role can not change role", 401
    | BadRequest              // "Bad request", 400
    | InternalError           // an exception: rollback, 500
    | InvalidPassword         // password policy, 400
    | PasswordMismatch        // confirmation differs, 400
    | MissingFields           // "All fields are required", 400
    | InvalidEmail            // "Email is invalid pattern", 400
    | EmailTaken              // "This email is already registered", 400
    | CredentialsRequired     // "Email and password are required", 404
    | InvalidCredentials      // "Invalid credentials", 401

  /** The signed session cookie: only `user_id` is ever stored. */
  class Session {
    var userId: Option<UserId>

    constructor ()
      ensures userId == None
    {
      userId := None;
    }
  }

  // ----- the authorisation prefix every protected handler repeats -----

  datatype Access = Granted(user: UserId) | Denied(reason: Outcome)

  /** Session present, user row found, role row found, role name exactly
      `roleName`, `permission` in the role's list — in that order. */
  function Authorize(session: Option<UserId>, users: map<UserId, User>, roles: map<RoleId, Role>,
                     roleName: string, permission: string): (a: Access)
    ensures a.Granted? <==>
      && session.Some? && session.value in users
      && users[session.value].roleId in roles
      && roles[users[session.value].roleId].name == roleName
      && CheckPermission(users[session.value], roles, permission)
    ensures a.Granted? ==> session == Some(a.user)
    ensures a == Denied(NotLoggedIn) <==> session.None?
    ensures a == Denied(UserNotFound) <==> session.Some? && session.value !in users
    ensures a == Denied(RoleNotFound) <==>
      session.Some? && session.value in users && users[session.value].roleId !in roles
    ensures a == Denied(UnauthorizedRole) <==>
      && session.Some? && session.value in users && users[session.value].roleId in roles
      && roles[users[session.value].roleId].name != roleName
    ensures a.Denied? ==> a.reason in {NotLoggedIn, UserNotFound, RoleNotFound, UnauthorizedRole, UnauthorizedPermission}
  {
    if session.None? then Denied(NotLoggedIn)
    else if session.value !in users then Denied(UserNotFound)
    else if users[session.value].roleId !in roles then Denied(RoleNotFound)
    else if roles[users[session.value].roleId].name != roleName then Denied(UnauthorizedRole)
    else if !CheckPermission(users[session.value], roles, permission) then Denied(UnauthorizedPermission)
    else Granted(session.value)
  }

  predicate RoleExists(roles: map<RoleId, Role>, name: string) {
    exists r :: r in roles && roles[r].name == name
  }

  predicate EmailInUse(users: map<UserId, User>, email: string) {
    exists u :: u in users && users[u].email == email
  }

  // ----- what each handler answers, as a function of the state it reads -----

  function CreateDecision(session: Option<UserId>, users: map<UserId, User>, roles: map<RoleId, Role>,
                          quote: string): Outcome {
    match Authorize(session, users, roles, "user", "create_own_content")
    case Denied(reason) => reason
    case Granted(_) => if Strip(quote) == [] then QuoteRequired else Ok
  }

  function UpdateDecision(session: Option<UserId>, users: map<UserId, User>, roles: map<RoleId, Role>,
                          contents: map<ContentId, Content>, id: ContentId): Outcome {
    match Authorize(session, users, roles, "user", "update_own_content")
    case Denied(reason) => reason
    case Granted(_) => if id !in contents then NotFound else Ok
  }

  /** No lookup of the content: a missing id is not an error. */
  function DeleteDecision(session: Option<UserId>, users: map<UserId, User>, roles: map<RoleId, Role>): Outcome {
    match Authorize(session, users, roles, "user", "delete_own_content")
    case Denied(reason) => reason
    case Granted(_) => Ok
  }

  function BanDecision(session: Option<UserId>, users: map<UserId, User>, roles: map<RoleId, Role>,
                       contents: map<ContentId, Content>, id: ContentId): Outcome {
    match Authorize(session, users, roles, "admin", "ban")
    case Denied(reason) => reason
    case Granted(_) => if id !in contents then NotFound else Ok
  }

  function ListUsersDecision(session: Option<UserId>, users: map<UserId, User>, roles: map<RoleId, Role>): Outcome {
    match Authorize(session, users, roles, "superadmin", "updateadmin")
    case Denied(reason) => reason
    case Granted(_) => Ok
  }

  /** A missing target role raises at `target_role.name` before its `None`
      check, and a missing requested role raises at `new_role.id`: both end
      in the generic error path. */
  function ManageRoleDecision(session: Option<UserId>, users: map<UserId, User>, roles: map<RoleId, Role>,
                              target: UserId, requestedRole: string): Outcome {
    match Authorize(session, users, roles, "superadmin", "updateadmin")
    case Denied(reason) => reason
    case Granted(_) =>
      if target !in users then NotFound
      else if users[target].roleId !in roles then InternalError
      else if roles[users[target].roleId].name !in ["user", "admin"] then TargetRoleLocked
      else if Strip(requestedRole) !in ["user", "admin"] then BadRequest
      else if !RoleExists(roles, Strip(requestedRole)) then InternalError
      else Ok
  }

  /** The registration checks, in the order of app.py, on the fields as
      the handler has cleaned them. */
  function RegisterChecks(users: map<UserId, User>, roles: map<RoleId, Role>, firstName: string,
                          lastName: string, email: string, password: string, passwordConfirm: string): Outcome {
    if !IsValidPassword(password) then InvalidPassword
    else if password != passwordConfirm then PasswordMismatch
    else if firstName == [] || lastName == [] || email == [] || password == [] then MissingFields
    else if !IsValidEmail(email) then InvalidEmail
    else if EmailInUse(users, email) then EmailTaken
    else if !RoleExists(roles, "user") then RoleNotFound
    else Ok
  }

  /** Registration succeeds exactly when every check passes, and fails on
      the uniqueness check exactly when everything before it passes. */
  lemma RegisterChecksOutcomes(users: map<UserId, User>, roles: map<RoleId, Role>, firstName: string,
                               lastName: string, email: string, password: string, passwordConfirm: string)
    ensures RegisterChecks(users, roles, firstName, lastName, email, password, passwordConfirm) == Ok <==>
      && IsValidPassword(password) && password == passwordConfirm
      && firstName != [] && lastName != [] && email != []
      && IsValidEmail(email) && !EmailInUse(users, email) && RoleExists(roles, "user")
    ensures RegisterChecks(users, roles, firstName, lastName, email, password, passwordConfirm) == EmailTaken <==>
      && IsValidPassword(password) && password == passwordConfirm
      && firstName != [] && lastName != [] && email != []
      && IsValidEmail(email) && EmailInUse(users, email)
  {
  }

  /** `register` on the raw form fields: every field is stripped and the
      e-mail is lower-cased before any check. */
  function RegisterDecision(users: map<UserId, User>, roles: map<RoleId, Role>, firstName: string,
                            lastName: string, email: string, password: string, passwordConfirm: string): Outcome {
    RegisterChecks(users, roles, Strip(firstName), Strip(lastName), NormalizeEmail(email), Strip(password), Strip(passwordConfirm))
  }

  /** A wrong password and an unknown address give the same answer. */
  function LoginDecision(users: map<UserId, User>, email: string, password: string): Outcome {
    var e, p := NormalizeEmail(email), Strip(password);
    if e == [] || p == [] then CredentialsRequired
    else if exists u :: u in users && users[u].email == e && CheckPassword(p, users[u].passwordHash) then Ok
    else InvalidCredentials
  }

  /** The row `register` adds for these form fields. */
  function RegisteredUser(firstName: string, lastName: string, bio: string, email: string,
                          password: string, roleId: RoleId): User {
    User(Strip(firstName), Strip(lastName), Strip(bio), NormalizeEmail(email), HashPassword(Strip(password)), roleId)
  }

  // ----- the content status machine -----

  /** The ban endpoint's toggle: `Active` is banned, `Ban` is retired, and
      `Inactive` is left as it is. */
  function BanToggle(s: Status): Status {
    match s
    case Active => Ban
    case Ban => Inactive
    case Inactive => Inactive
  }

  /** `update_content`: a blank new quote keeps the old one; the status is
      not consulted and not changed. */
  function Edited(c: Content, newQuote: string, now: int): Content {
    c.(quote := if Strip(newQuote) != [] then Strip(newQuote) else c.quote, updatedAt := now)
  }

  /** `delete_content`: a soft delete, whatever the status was. */
  function SoftDeleted(c: Content, now: int): Content {
    c.(status := Inactive, updatedAt := now)
  }

  /** `ban_content`: only the two toggling statuses are written. */
  function Moderated(c: Content, now: int): Content {
    if c.status == Inactive then c else c.(status := BanToggle(c.status), updatedAt := now)
  }

  /** What every handler keeps of the content table: no row disappears, the
      creator and creation time never change, and `Inactive` is final. */
  ghost predicate Evolves(before: map<ContentId, Content>, after: map<ContentId, Content>) {
    forall id :: id in before ==>
      && id in after
      && after[id].createdBy == before[id].createdBy
      && after[id].createdAt == before[id].createdAt
      && (before[id].status == Inactive ==> after[id].status == Inactive)
  }

  /** `index` lists exactly the rows that are not `Inactive`, banned ones
      included. */
  predicate Listed(c: Content) {
    StatusName(c.status) != "Inactive"
  }

  // ----- handlers -----

  /** `index`: the id and quote of every listed row, each once, in no
      particular order. */
  method Index(db: Db) returns (items: seq<(ContentId, string)>)
    ensures forall k :: 0 <= k < |items| ==>
      items[k].0 in db.contents && Listed(db.contents[items[k].0]) && items[k].1 == db.contents[items[k].0].quote
    ensures forall id :: id in db.contents && Listed(db.contents[id]) ==>
      exists k :: 0 <= k < |items| && items[k].0 == id
    ensures forall k, l :: 0 <= k < l < |items| ==> items[k].0 != items[l].0
  {
    items := [];
    var pending := db.contents.Keys;
    while pending != {}
      invariant pending <= db.contents.Keys
      invariant forall k :: 0 <= k < |items| ==>
        items[k].0 in db.contents && items[k].0 !in pending
        && Listed(db.contents[items[k].0]) && items[k].1 == db.contents[items[k].0].quote
      invariant forall id :: id in db.contents && id !in pending && Listed(db.contents[id]) ==>
        exists k :: 0 <= k < |items| && items[k].0 == id
      invariant forall k, l :: 0 <= k < l < |items| ==> items[k].0 != items[l].0
      decreases pending
    {
      var id :| id in pending;
      if Listed(db.contents[id]) {
        ghost var before := items;
        items := items + [(id, db.contents[id].quote)];
        assert items[|before|].0 == id;
        assert forall k :: 0 <= k < |before| ==> items[k] == before[k];
      }
      pending := pending - {id};
    }
  }

  /** `check_session`. */
  method CheckSession(session: Session) returns (o: Outcome, userId: Option<UserId>)
    ensures userId == session.userId
    ensures o == Ok <==> session.userId.Some?
    ensures o != Ok ==> o == NotLoggedIn
  {
    userId := session.userId;
    o := if userId.Some? then Ok else NotLoggedIn;
  }

  /** `login`: e-mail stripped and lower-cased, password stripped. Only a
      success writes the session. */
  method Login(db: Db, session: Session, email: string, password: string) returns (o: Outcome)
    requires db.Valid()
    modifies session
    ensures o == LoginDecision(db.users, email, password)
    ensures o == Ok ==>
      && session.userId.Some? && session.userId.value in db.users
      && db.users[session.userId.value].email == NormalizeEmail(email)
      && CheckPassword(Strip(password), db.users[session.userId.value].passwordHash)
    ensures o != Ok ==> session.userId == old(session.userId)
  {
    var e, p := NormalizeEmail(email), Strip(password);
    if e == [] || p == [] {
      return CredentialsRequired;
    }
    if exists u :: u in db.users && db.users[u].email == e {
      var u :| u in db.users && db.users[u].email == e;
      if CheckPassword(p, db.users[u].passwordHash) {
        session.userId := Some(u);
        return Ok;
      }
    }
    o := InvalidCredentials;
  }

  /** `logout`: `session.clear()`. */
  method Logout(session: Session)
    modifies session
    ensures session.userId == None
  {
    session.userId := None;
  }

  /** `register`: adds one user with the `user` role or nothing. It does not
      log the new user in (the session is not an input). */
  method Register(db: Db, firstName: string, lastName: string, bio: string, email: string,
                  password: string, passwordConfirm: string) returns (o: Outcome, id: Option<UserId>)
    requires db.Valid()
    modifies db`users
    ensures db.Valid()
    ensures o == RegisterDecision(old(db.users), db.roles, firstName, lastName, email, password, passwordConfirm)
    ensures o == Ok <==> id.Some?
    ensures id.Some? ==>
      && id.value !in old(db.users) && id.value in db.users
      && db.users == old(db.users)[id.value := RegisteredUser(firstName, lastName, bio, email, password, db.users[id.value].roleId)]
      && db.users[id.value].roleId in db.roles && db.roles[db.users[id.value].roleId].name == "user"
    ensures o != Ok ==> db.users == old(db.users)
    ensures old(db.Consistent()) ==> db.Consistent()
  {
    var first, last, e := Strip(firstName), Strip(lastName), NormalizeEmail(email);
    var p, pc := Strip(password), Strip(passwordConfirm);
    if !IsValidPassword(p) {
      return InvalidPassword, None;
    }
    if p != pc {
      return PasswordMismatch, None;
    }
    if first == [] || last == [] || e == [] || p == [] {
      return MissingFields, None;
    }
    if !IsValidEmail(e) {
      return InvalidEmail, None;
    }
    var hash := HashPassword(p);
    if EmailInUse(db.users, e) {
      return EmailTaken, None;
    }
    if !RoleExists(db.roles, "user") {
      return RoleNotFound, None;
    }
    var roleId :| roleId in db.roles && db.roles[roleId].name == "user";
    var newId := db.AddUser(User(first, last, Strip(bio), e, hash, roleId));
    o, id := Ok, Some(newId);
  }

  /** `content` (POST): a new `Active` row owned by the session user, stamped
      with the current time. */
  method CreateContent(db: Db, session: Session, quote: string) returns (o: Outcome, id: Option<ContentId>)
    requires db.Valid()
    modifies db`contents
    ensures db.Valid()
    ensures o == CreateDecision(session.userId, db.users, db.roles, quote)
    ensures o == Ok <==> id.Some?
    ensures id.Some? ==>
      && session.userId.Some? && id.value !in old(db.contents)
      && db.contents == old(db.contents)[id.value := Content(Strip(quote), Active, session.userId.value, db.clock, db.clock)]
    ensures o != Ok ==> db.contents == old(db.contents)
    ensures Evolves(old(db.contents), db.contents)
    ensures old(db.Consistent()) ==> db.Consistent()
  {
    var access := Authorize(session.userId, db.users, db.roles, "user", "create_own_content");
    if access.Denied? {
      return access.reason, None;
    }
    var q := Strip(quote);
    if q == [] {
      return QuoteRequired, None;
    }
    var newId := db.AddContent(Content(q, Active, access.user, db.clock, db.clock));
    o, id := Ok, Some(newId);
  }

  /** `update_content`: any item, whoever created it and whatever its status. */
  method UpdateContent(db: Db, session: Session, id: ContentId, quote: string) returns (o: Outcome)
    requires db.Valid()
    modifies db`contents
    ensures db.Valid()
    ensures o == UpdateDecision(session.userId, db.users, db.roles, old(db.contents), id)
    ensures o == Ok ==> db.contents == old(db.contents)[id := Edited(old(db.contents)[id], quote, db.clock)]
    ensures o != Ok ==> db.contents == old(db.contents)
    ensures Evolves(old(db.contents), db.contents)
    ensures old(db.Consistent()) ==> db.Consistent()
  {
    var access := Authorize(session.userId, db.users, db.roles, "user", "update_own_content");
    if access.Denied? {
      return access.reason;
    }
    if id !in db.contents {
      return NotFound;
    }
    db.SetContent(id, Edited(db.contents[id], quote, db.clock));
    o := Ok;
  }

  /** `delete_content`: the update is filtered by id, so a missing id
      changes nothing and still succeeds. */
  method DeleteContent(db: Db, session: Session, id: ContentId) returns (o: Outcome)
    requires db.Valid()
    modifies db`contents
    ensures db.Valid()
    ensures o == DeleteDecision(session.userId, db.users, db.roles)
    ensures o == Ok && id in old(db.contents) ==>
      db.contents == old(db.contents)[id := SoftDeleted(old(db.contents)[id], db.clock)]
    ensures o != Ok || id !in old(db.contents) ==> db.contents == old(db.contents)
    ensures Evolves(old(db.contents), db.contents)
    ensures old(db.Consistent()) ==> db.Consistent()
  {
    var access := Authorize(session.userId, db.users, db.roles, "user", "delete_own_content");
    if access.Denied? {
      return access.reason;
    }
    if id in db.contents {
      db.SetContent(id, SoftDeleted(db.contents[id], db.clock));
    }
    o := Ok;
  }

  /** `ban_content`: the toggle; an `Inactive` row is not written at all. */
  method BanContent(db: Db, session: Session, id: ContentId) returns (o: Outcome)
    requires db.Valid()
    modifies db`contents
    ensures db.Valid()
    ensures o == BanDecision(session.userId, db.users, db.roles, old(db.contents), id)
    ensures o == Ok ==> db.contents == old(db.contents)[id := Moderated(old(db.contents)[id], db.clock)]
    ensures o == Ok && old(db.contents)[id].status == Inactive ==> db.contents == old(db.contents)
    ensures o != Ok ==> db.contents == old(db.contents)
    ensures Evolves(old(db.contents), db.contents)
    ensures old(db.Consistent()) ==> db.Consistent()
  {
    var access := Authorize(session.userId, db.users, db.roles, "admin", "ban");
    if access.Denied? {
      return access.reason;
    }
    if id !in db.contents {
      return NotFound;
    }
    var c := db.contents[id];
    if StatusName(c.status) == "Active" {
      db.SetContent(id, c.(status := Ban, updatedAt := db.clock));
    } else if StatusName(c.status) == "Ban" {
      db.SetContent(id, c.(status := Inactive, updatedAt := db.clock));
    }
    o := Ok;
  }

  /** `list_user`: the id and e-mail of every user, for a superadmin only. */
  method ListUsers(db: Db, session: Session) returns (o: Outcome, items: seq<(UserId, string)>)
    ensures o == ListUsersDecision(session.userId, db.users, db.roles)
    ensures o != Ok ==> items == []
    ensures forall k :: 0 <= k < |items| ==> items[k].0 in db.users && items[k].1 == db.users[items[k].0].email
    ensures o == Ok ==> forall u :: u in db.users ==> exists k :: 0 <= k < |items| && items[k].0 == u
    ensures forall k, l :: 0 <= k < l < |items| ==> items[k].0 != items[l].0
  {
    items := [];
    var access := Authorize(session.userId, db.users, db.roles, "superadmin", "updateadmin");
    if access.Denied? {
      return access.reason, [];
    }
    var pending := db.users.Keys;
    while pending != {}
      invariant pending <= db.users.Keys
      invariant forall k :: 0 <= k < |items| ==>
        items[k].0 in db.users && items[k].0 !in pending && items[k].1 == db.users[items[k].0].email
      invariant forall u :: u in db.users && u !in pending ==> exists k :: 0 <= k < |items| && items[k].0 == u
      invariant forall k, l :: 0 <= k < l < |items| ==> items[k].0 != items[l].0
      decreases pending
    {
      var u :| u in pending;
      ghost var before := items;
      items := items + [(u, db.users[u].email)];
      assert items[|before|].0 == u;
      assert forall k :: 0 <= k < |before| ==> items[k] == before[k];
      pending := pending - {u};
    }
    o := Ok;
  }

  /** `manage_role`: a superadmin moves a `user` to `admin` or back; a
      request for the role the target already has changes nothing. */
  method ManageRole(db: Db, session: Session, target: UserId, requestedRole: string) returns (o: Outcome)
    requires db.Valid()
    modifies db`users
    ensures db.Valid()
    ensures o == ManageRoleDecision(session.userId, old(db.users), db.roles, target, requestedRole)
    ensures o == Ok ==>
      && target in old(db.users) && target in db.users
      && db.users == old(db.users)[target := old(db.users)[target].(roleId := db.users[target].roleId)]
      && db.users[target].roleId in db.roles
      && db.roles[db.users[target].roleId].name == Strip(requestedRole)
      && old(db.users)[target].roleId in db.roles
      && (db.users == old(db.users) <==> db.roles[old(db.users)[target].roleId].name == Strip(requestedRole))
    ensures o != Ok ==> db.users == old(db.users)
    ensures old(db.Consistent()) ==> db.Consistent()
  {
    var access := Authorize(session.userId, db.users, db.roles, "superadmin", "updateadmin");
    if access.Denied? {
      return access.reason;
    }
    if target !in db.users {
      return NotFound;
    }
    var targetRoleId := db.users[target].roleId;
    if targetRoleId !in db.roles {
      return InternalError;
    }
    var targetRoleName := db.roles[targetRoleId].name;
    if targetRoleName !in ["user", "admin"] {
      return TargetRoleLocked;
    }
    var requested := Strip(requestedRole);
    if requested !in ["user", "admin"] {
      return BadRequest;
    }
    if !RoleExists(db.roles, requested) {
      return InternalError;
    }
    var newRoleId :| newRoleId in db.roles && db.roles[newRoleId].name == requested;
    if targetRoleName == "user" && requested == "admin" {
      db.SetUserRole(target, newRoleId);
    } else if targetRoleName == "admin" && requested == "user" {
      db.SetUserRole(target, newRoleId);
    }
    // otherwise the row is re-set to its own role id and not committed:
    // no change either way
    o := Ok;
  }

  // ----- properties -----

  /** `n` presses of the ban toggle. */
  function Toggled(s: Status, n: nat): Status
    decreases n
  {
    if n == 0 then s else Toggled(BanToggle(s), n - 1)
  }

  /** One press bans, a second retires, and from then on nothing moves:
      `Inactive` is a fixed point. */
  lemma {:induction false} ToggleSettles(s: Status, n: nat)
    ensures s == Inactive ==> Toggled(s, n) == Inactive
    ensures s == Ban && n >= 1 ==> Toggled(s, n) == Inactive
    ensures s == Active && n == 1 ==> Toggled(s, n) == Ban
    ensures s == Active && n >= 2 ==> Toggled(s, n) == Inactive
    decreases n
  {
    if n > 0 {
      ToggleSettles(BanToggle(s), n - 1);
    }
  }

  /** Three ban requests on an `Active` row: banned, then retired, then
      untouched (the third writes nothing, not even the time). */
  lemma BanThreeTimes(c: Content, t1: int, t2: int, t3: int)
    requires c.status == Active
    ensures Moderated(c, t1).status == Ban
    ensures Moderated(Moderated(c, t1), t2) == c.(status := Inactive, updatedAt := t2)
    ensures Moderated(Moderated(Moderated(c, t1), t2), t3) == Moderated(Moderated(c, t1), t2)
  {
  }

  /** Of all changes a handler makes to a row, none leaves `Inactive`;
      editing keeps any status, `Ban` included. */
  lemma InactiveIsFinal(c: Content, quote: string, now: int)
    ensures Edited(c, quote, now).status == c.status
    ensures SoftDeleted(c, now).status == Inactive
    ensures c.status == Inactive ==> Moderated(c, now) == c
    ensures Moderated(c, now).status != Active
  {
  }

  /** A run of handlers keeps what each of them keeps. */
  lemma EvolvesTransitive(a: map<ContentId, Content>, b: map<ContentId, Content>, c: map<ContentId, Content>)
    requires Evolves(a, b) && Evolves(b, c)
    ensures Evolves(a, c)
  {
  }

  /** Creating succeeds exactly for a session user whose role is named
      `user` and lists `create_own_content`, with a quote that is not all
      whitespace. */
  lemma CreateSucceedsIff(session: Option<UserId>, users: map<UserId, User>, roles: map<RoleId, Role>, quote: string)
    ensures CreateDecision(session, users, roles, quote) == Ok <==>
      && session.Some? && session.value in users
      && users[session.value].roleId in roles
      && roles[users[session.value].roleId].name == "user"
      && "create_own_content" in roles[users[session.value].roleId].permissions
      && !AllSpace(quote)
  {
  }

  /** With the seeded roles the role-name test and the permission test of
      each handler select the same users: permissions are flat, so neither
      `admin` nor `superadmin` may write content, and only `admin` bans. */
  lemma SeededAuthorization(session: Option<UserId>, users: map<UserId, User>, roles: map<RoleId, Role>, token: string)
    requires RolesSeeded(roles)
    requires session.Some? && session.value in users && users[session.value].roleId in roles
    ensures token in SeedPermissions("user") ==>
      (Authorize(session, users, roles, "user", token).Granted? <==> roles[users[session.value].roleId].name == "user")
    ensures Authorize(session, users, roles, "admin", "ban").Granted? <==> roles[users[session.value].roleId].name == "admin"
    ensures Authorize(session, users, roles, "superadmin", "updateadmin").Granted? <==>
      roles[users[session.value].roleId].name == "superadmin"
  {
    SeededCheckPermission(roles, users[session.value], token);
    SeededCheckPermission(roles, users[session.value], "ban");
    SeededCheckPermission(roles, users[session.value], "updateadmin");
  }

  /** A role change succeeds exactly for an authorised superadmin, a stored
      target whose role is `user` or `admin`, and a stripped request naming
      one of those two roles that is stored; a superadmin target never
      changes. */
  lemma ManageRoleEligibility(session: Option<UserId>, users: map<UserId, User>, roles: map<RoleId, Role>,
                              target: UserId, requestedRole: string)
    ensures ManageRoleDecision(session, users, roles, target, requestedRole) == Ok <==>
      && Authorize(session, users, roles, "superadmin", "updateadmin").Granted?
      && target in users && users[target].roleId in roles
      && (roles[users[target].roleId].name == "user" || roles[users[target].roleId].name == "admin")
      && (Strip(requestedRole) == "user" || Strip(requestedRole) == "admin")
      && RoleExists(roles, Strip(requestedRole))
    ensures target in users && users[target].roleId in roles && roles[users[target].roleId].name == "superadmin" ==>
      ManageRoleDecision(session, users, roles, target, requestedRole) != Ok
  {
  }

  /** Login succeeds exactly for a stored user whose address is the
      normalised one given and whose hash is that of the stripped password;
      every other non-empty attempt gets the one answer, so the response does
      not tell an unknown address from a wrong password. */
  lemma LoginSucceedsIff(users: map<UserId, User>, email: string, password: string)
    ensures LoginDecision(users, email, password) == Ok <==>
      && NormalizeEmail(email) != [] && Strip(password) != []
      && exists u :: u in users && users[u].email == NormalizeEmail(email)
                     && users[u].passwordHash == HashPassword(Strip(password))
    ensures LoginDecision(users, email, password) in {Ok, CredentialsRequired, InvalidCredentials}
    ensures LoginDecision(users, email, password) == CredentialsRequired <==> AllSpace(email) || AllSpace(password)
  {
    StripSpec(email);
    StripSpec(password);
    LowerSpec(Strip(email));
  }

  /** Whoever registers can log in at once with the same two fields. */
  lemma RegisterThenLogin(users: map<UserId, User>, roles: map<RoleId, Role>, firstName: string, lastName: string,
                          bio: string, email: string, password: string, passwordConfirm: string,
                          id: UserId, roleId: RoleId)
    requires RegisterDecision(users, roles, firstName, lastName, email, password, passwordConfirm) == Ok
    ensures LoginDecision(users[id := RegisteredUser(firstName, lastName, bio, email, password, roleId)], email, password) == Ok
  {
    var after: map<UserId, User> := users[id := RegisteredUser(firstName, lastName, bio, email, password, roleId)];
    assert after[id].email == NormalizeEmail(email);
    assert CheckPassword(Strip(password), after[id].passwordHash);
  }

  /** After a registration, registering again with the same address in any
      ASCII letter case fails on the uniqueness check, provided the second
      attempt passes the password, confirmation and name checks. */
  lemma RegisterCaseVariantTaken(users: map<UserId, User>, roles: map<RoleId, Role>, firstName: string, lastName: string,
                                 bio: string, email: string, password: string, passwordConfirm: string,
                                 id: UserId, roleId: RoleId,
                                 firstName2: string, lastName2: string, email2: string, password2: string, passwordConfirm2: string)
    requires RegisterDecision(users, roles, firstName, lastName, email, password, passwordConfirm) == Ok
    requires Lower(email2) == Lower(email)
    requires IsValidPassword(Strip(password2)) && Strip(password2) == Strip(passwordConfirm2)
    requires Strip(firstName2) != [] && Strip(lastName2) != []
    ensures RegisterDecision(users[id := RegisteredUser(firstName, lastName, bio, email, password, roleId)], roles,
                             firstName2, lastName2, email2, password2, passwordConfirm2) == EmailTaken
  {
    var e := NormalizeEmail(email);
    RegisterChecksOutcomes(users, roles, Strip(firstName), Strip(lastName), e, Strip(password), Strip(passwordConfirm));
    NormalizeEmailProperties(email2, email);
    var after: map<UserId, User> := users[id := RegisteredUser(firstName, lastName, bio, email, password, roleId)];
    assert after[id].email == e;
    RegisterChecksOutcomes(after, roles, Strip(firstName2), Strip(lastName2), e, Strip(password2), Strip(passwordConfirm2));
  }

  /** `init_db` stores SUPERADMIN_EMAIL and hashes SUPERADMIN_PASSWORD as
      given, while `login` strips and lower-cases what it is sent: the
      superadmin can log in exactly when the configured address is already
      in that normal form and the password has no surrounding whitespace. */
  lemma SuperadminLogin(roles: map<RoleId, Role>, users: map<UserId, User>, contents: map<ContentId, Content>,
                        email: string, password: string, loginEmail: string, loginPassword: string)
    requires Seeded(roles, users, contents, email, password)
    ensures LoginDecision(users, loginEmail, loginPassword) == Ok ==>
      email == NormalizeEmail(email) && password == Strip(password)
    ensures email == NormalizeEmail(email) && email != [] && password == Strip(password) && password != [] ==>
      LoginDecision(users, email, password) == Ok
  {
    if LoginDecision(users, loginEmail, loginPassword) == Ok {
      var u :| u in users && users[u].email == NormalizeEmail(loginEmail)
        && CheckPassword(Strip(loginPassword), users[u].passwordHash);
      NormalizeEmailProperties(loginEmail, loginEmail);
      StripIdempotent(loginPassword);
    }
    var u :| u in users;
    assert users[u].email == email;
  }
}
