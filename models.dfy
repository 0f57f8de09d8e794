/** Records of the quote service's store (models.py): users, roles and
    content items, the three content status values, and the invariants the
    database schema imposes on the tables. */
module Models {

  datatype Option<T> = None | Some(value: T)

  /** Primary keys. The tables use random UUIDs; here any natural number
      stands for one, and `NewId` hands out an unused one. */
  type UserId = nat
  type RoleId = nat
  type ContentId = nat

  /** Content status. The column is a string holding one of three constants;
      as an enumeration the value can never be anything else. */
  datatype Status = Active | Inactive | Ban

  /** The string stored in the `status` column for each value. */
  function StatusName(s: Status): string {
    match s
    case Active => "Active"
    case Inactive => "Inactive"
    case Ban => "Ban"
  }

  /** Reading the `status` column back; any other string is not a status. */
  function ParseStatus(name: string): (r: Option<Status>)
    ensures forall s :: r == Some(s) <==> StatusName(s) == name
  {
    if name == "Active" then Some(Active)
    else if name == "Inactive" then Some(Inactive)
    else if name == "Ban" then Some(Ban)
    else None
  }

  /** The three constants are distinct strings and each reads back as itself. */
  lemma StatusNamesRoundTrip(s: Status, t: Status)
    ensures ParseStatus(StatusName(s)) == Some(s)
    ensures StatusName(s) == StatusName(t) ==> s == t
  {
  }

  /** A stored password hash. The model keeps the password it was computed
      from, which makes it an ideal (collision-free) hash; salting and the
      argon2 computation are not modelled. */
  datatype PasswordHash = Argon2Of(password: string)

  datatype User = User(
    firstName: string,
    lastName: string,
    bio: string,
    email: string,
    passwordHash: PasswordHash,
    roleId: RoleId)

  /** `permissions` is the JSON list stored with the role. */
  datatype Role = Role(name: string, permissions: seq<string>)

  /** Timestamps are readings of the integer clock. */
  datatype Content = Content(
    quote: string,
    status: Status,
    createdBy: UserId,
    createdAt: int,
    updatedAt: int)

  // ----- schema constraints -----

  /** `email` is declared unique. */
  ghost predicate EmailsUnique(users: map<UserId, User>) {
    forall a, b :: a in users && b in users && users[a].email == users[b].email ==> a == b
  }

  /** `name` is declared unique. */
  ghost predicate RoleNamesUnique(roles: map<RoleId, Role>) {
    forall a, b :: a in roles && b in roles && roles[a].name == roles[b].name ==> a == b
  }

  /** The `role_id` foreign key: every user's role is a stored role. */
  ghost predicate RolesResolve(users: map<UserId, User>, roles: map<RoleId, Role>) {
    forall u :: u in users ==> users[u].roleId in roles
  }

  /** The `created_by` foreign key: every content item's creator is a stored user. */
  ghost predicate CreatorsResolve(contents: map<ContentId, Content>, users: map<UserId, User>) {
    forall c :: c in contents ==> contents[c].createdBy in users
  }

  // ----- fresh keys -----

  /** A strict upper bound of a finite set of keys. */
  ghost function KeyBound(used: set<nat>): (b: nat)
    ensures forall k :: k in used ==> k < b
    decreases used
  {
    if used == {} then 0
    else
      var k :| k in used;
      var rest := KeyBound(used - {k});
      assert forall j :: j in used ==> j == k || j in used - {k};
      if k < rest then rest else k + 1
  }

  /** `default=uuid.uuid4`: some key that no stored row has. Which one is
      left open, as random UUIDs are. */
  method NewId(used: set<nat>) returns (id: nat)
    ensures id !in used
  {
    assert KeyBound(used) !in used;
    id :| id !in used;
  }
}
