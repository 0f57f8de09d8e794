# Quote service: authorisation and content status, in Dafny

The system is a small Flask service for posting quotes. It stores three
tables:

- roles: a unique name plus a JSON list of permission tokens;
- users: names, bio, a unique e-mail, an argon2 password hash and a role;
- content items: a quote, a status, the creator, and created/updated times.

The session keeps one value, the id of the logged-in user.

`init_db` drops every table and seeds three roles: `superadmin` holds
`updateadmin`, `admin` holds `ban`, and `user` holds the three
content-editing tokens. It then adds one superadmin account taken from the
SUPERADMIN_EMAIL and SUPERADMIN_PASSWORD settings.

Each protected handler runs the same chain in order:

1. a session user must exist;
2. that user's row must exist;
3. the user's role must exist;
4. the role name must be exactly the handler's role;
5. the role's list must hold the handler's token.

Then come the handler's own checks, and finally at most one store update.
Content moves through a three-state machine. `Active` is banned to `Ban`.
`Ban` is retired to `Inactive`. Deleting sets `Inactive` from any state.
Nothing leaves `Inactive`.

The model has four modules, one per source file:

- `Models` (models.dfy):
  - the records;
  - the status constants;
  - the schema's uniqueness and foreign-key invariants over maps;
  - fresh keys for `uuid4`.
- `Utils` (utils.dfy):
  - Python's `str.strip()` and `str.lower()` as the handlers apply them;
  - the e-mail and password regular expressions as predicates over strings;
  - the password hash as an ideal hash;
  - `check_permission`.
- `Database` (database.dfy):
  - the store as a class `Db` with map fields and an integer clock;
  - `init_db`;
  - facts about the seeded roles.
- `App` (app.dfy):
  - one outcome value per kind of response (a value can stand for several messages of the same kind);
  - the session as a class;
  - each handler as a method that walks the handler's early-return chain;
  - a decision function per handler that states which outcome each input
    state gets;
  - lemmas relating the handlers.

The code does less than the names of its tokens and handlers suggest (`update_own_content`, `delete_own_content`, a "ban" that also retires), and the model follows the code:

- Updating and deleting check neither ownership nor the current status.
- Editing a banned quote leaves it banned.
- Registration does not log the new user in.
- Banning an `Inactive` quote succeeds and writes nothing.
- The index lists banned quotes.

## Model

| member | source | states |
|---|---|---|
| Models.ParseStatus | models.py:7-10 | reading a stored status string gives back exactly the status whose constant it is, and no status for any other string |
| Models.StatusNamesRoundTrip | models.py:8-10 | the three status constants are distinct, and each one reads back as its own status |
| Models.NewId | models.py:39 | the key chosen for a new row is not the key of any stored row |
| Utils.StripSpec | app.py:71-76 | a stripped field is a slice of the input with only whitespace removed on both sides; it neither starts nor ends with whitespace; it is empty exactly when the input is all whitespace |
| Utils.StripIdempotent | app.py:71-76 | stripping an already stripped field changes nothing |
| Utils.LowerSpec | app.py:74 | lower-casing keeps the length, turns each ASCII capital into the matching small letter, changes no other character, and keeps every whitespace character where it was |
| Utils.LowerIdempotent | app.py:74 | lower-casing twice is lower-casing once |
| Utils.LowerKeepsSpaces | app.py:74 | the leading and trailing whitespace of a field is the same before and after lower-casing |
| Utils.StripLowerCommute | app.py:74 | stripping and then lower-casing gives the same string as lower-casing and then stripping |
| Utils.NormalizeEmailProperties | app.py:40 | a normalised e-mail is its own normal form; two addresses that differ only in ASCII letter case normalise to the same string |
| Utils.ValidEmailOfStripped | utils.py:32-34 | on a stripped string, the end-of-string rule for a trailing newline never matters |
| Utils.EmailFromParts | utils.py:32-34 | every local part, domain label and suffix over the pattern's character classes, each non-empty, joins into an address the pattern accepts |
| Utils.EmailSplitIsFirst | utils.py:33 | a match always splits at the first `@` and at the first `.` after it |
| Utils.SplitEmail | utils.py:32-34 | every string in the pattern's language (`EmailShape`, which is what `IsValidEmail` accepts on a stripped string, by ValidEmailOfStripped) is local `@` domain `.` suffix, with each part non-empty and within its class, no `@` in the local part and no `.` in the domain label |
| Utils.EmailHasOneAt | utils.py:33 | every string in the pattern's language (`EmailShape`) has exactly one `@` and a `.` somewhere after it |
| Utils.PasswordPolicy | utils.py:36-38 | an accepted password has at least 8 characters, an ASCII capital and one of the listed symbols; on newline-free strings these three conditions are also sufficient |
| Utils.PasswordExtends | utils.py:37 | appending anything to an accepted password keeps it accepted, because the pattern has no end anchor |
| Utils.PasswordExamples | utils.py:37 | `abcdefgh` is rejected, `Abcdefg!` is accepted, and every 7-character string is rejected |
| Utils.CheckPassword | utils.py:45-49 | verification accepts a password exactly against the hash of that same password |
| Database.SeededCheckPermission | utils.py:67-69 | against the seeded roles, a user holds a token exactly when the seed lists it for the user's role name: only `admin` holds `ban`, only `superadmin` holds `updateadmin`, only `user` holds the content tokens |
| Database.Db.InitDb | database.py:19-98 | without both superadmin settings nothing changes; otherwise every table is emptied, three roles are seeded, and exactly one user is added: the superadmin with the configured e-mail, the hash of the configured password and the superadmin role; the store invariants and foreign keys hold afterwards |
| Database.SeededRoleNames | database.py:51-55 | after seeding there are exactly three roles, named `superadmin`, `admin` and `user`, no two alike, each with its seeded permission list |
| Database.SeededPermissionsDisjoint | database.py:52-54 | no token is held by two seeded roles |
| Database.Db.AddUser | app.py:127-128 | the new user row gets an unused key and nothing else changes; e-mail uniqueness and the foreign keys are kept |
| Database.Db.SetUserRole | app.py:386-392 | only the role of the one user changes; the store invariants are kept |
| Database.Db.Advance | app.py:170-171 | the clock only moves forward, so every stored timestamp stays in the past |
| Models.EmailsUnique | models.py:20 | no two stored users share an e-mail (the `unique=True` constraint) |
| Models.RoleNamesUnique | models.py:31 | no two stored roles share a name |
| Models.RolesResolve | models.py:22 | every user's `role_id` is the key of a stored role |
| Models.CreatorsResolve | models.py:42 | every content item's `created_by` is the key of a stored user |
| Database.Db.Valid | models.py:20-44 | what the schema and the clock guarantee at every commit: unique e-mails, unique role names, and `created_at <= updated_at <=` the clock for every item |
| Database.Db.Consistent | models.py:22-42 | both foreign keys resolve; every handler keeps it, but none relies on it, as each checks its lookups |
| Database.Db.AddContent | app.py:174-175 | the new content row gets an unused key and nothing else changes; the invariants and, for a stored creator, the foreign keys are kept |
| Database.Db.SetContent | app.py:218-219 | only the one content row changes; the invariants are kept |
| Utils.Strip | app.py:71-76 | Python's `str.strip()`: what it promises is stated by StripSpec and StripIdempotent |
| Utils.Lower | app.py:74 | `str.lower()` on ASCII letters: each capital becomes its small letter and nothing else changes, as LowerSpec states; LowerIdempotent adds that it settles in one step |
| Utils.NormalizeEmail | app.py:40 | the `.strip().lower()` applied to every e-mail field: its properties are NormalizeEmailProperties |
| Utils.IsValidEmail | utils.py:32-34 | `re.match` of the e-mail pattern: the pattern's language (`EmailShape`), plus the same followed by one newline, which Python's `$` allows; the language is characterised by SplitEmail and EmailFromParts |
| Utils.IsValidPassword | utils.py:36-38 | `re.match` of the three lookaheads, where `.` does not cross a newline; characterised by PasswordPolicy |
| Utils.HashPassword | utils.py:41-43 | the stored hash of a password; with CheckPassword, a hash verifies exactly its own password |
| Utils.CheckPermission | utils.py:67-69 | membership of the token in the user's role's permission list; against the seeded roles, characterised by SeededCheckPermission |
| App.Session.constructor | app.py:61-66 | a fresh session holds no user, as after `session.clear()` |
| App.CreateDecision | app.py:141-163 | the create handler's answer: the authorisation chain for `user`/`create_own_content`, then a blank stripped quote; characterised by CreateSucceedsIff |
| App.UpdateDecision | app.py:189-211 | the update handler's answer: the authorisation chain for `user`/`update_own_content`, then a missing item; no ownership or status test |
| App.DeleteDecision | app.py:233-250 | the delete handler's answer: only the authorisation chain for `user`/`delete_own_content`; no lookup of the item |
| App.BanDecision | app.py:267-288 | the ban handler's answer: the authorisation chain for `admin`/`ban`, then a missing item |
| App.ListUsersDecision | app.py:310-327 | the list-users answer: only the authorisation chain for `superadmin`/`updateadmin` |
| App.ManageRoleDecision | app.py:345-384 | the role-change answer, in the handler's order: authorisation, missing target, unreadable target role, target role not `user`/`admin`, bad request, missing requested role; characterised by ManageRoleEligibility |
| App.RegisterChecks | app.py:79-114 | the six registration checks on the cleaned fields, in the handler's order; characterised by RegisterChecksOutcomes |
| App.LoginDecision | app.py:43-59 | the login answer: blank fields, else success for a stored user with that address and a verifying hash, else one answer for every other case; characterised by LoginSucceedsIff |
| App.Edited | app.py:213-218 | the row after an edit: a blank stripped quote keeps the old quote, the update time is now, and nothing else changes; see InactiveIsFinal |
| App.SoftDeleted | app.py:252 | the row after a delete: `Inactive` with the update time now, whatever the status was; see InactiveIsFinal |
| App.BanToggle | app.py:290-297 | the status after a ban request: `Active` to `Ban`, `Ban` to `Inactive`, `Inactive` unchanged; see ToggleSettles |
| App.Moderated | app.py:290-297 | the row after a ban request: the toggled status and a new update time, except that an `Inactive` row is not written; see BanThreeTimes |
| Models.StatusName | models.py:8-10 | the string stored for each status; ParseStatus and StatusNamesRoundTrip show the three strings are distinct and read back |
| Database.SeedPermissions | database.py:52-54 | the permission list each seeded role name gets, and none for any other name; see SeededRoleNames and SeededCheckPermission |
| Database.SeedRoles | database.py:51-55 | the three seeded role rows under three keys the database chooses; see SeededRoleNames and SeededPermissionsDisjoint |
| Database.SuperadminUser | database.py:66-73 | the superadmin row with its fixed names and bio, the configured e-mail as given and the hash of the configured password; see InitDb and SuperadminLogin |
| Database.Db.constructor | database.py:27-36 | the store before `init_db` runs: all three tables empty at the given clock reading, with Valid and Consistent holding |
| App.RoleExists | app.py:110-114 | a stored role carries the given name: the `Role` lookup by name here and again at app.py:382 |
| App.EmailInUse | app.py:105-107 | a stored user carries the given e-mail (the uniqueness lookup before insert) |
| App.RegisterDecision | app.py:71-114 | the register answer on the raw form fields: every field stripped and the e-mail lower-cased, then the six checks of RegisterChecks; Register's contract and RegisterThenLogin rest on it |
| App.RegisteredUser | app.py:117-124 | the row `register` inserts: stripped names and bio, the normalised e-mail, the hash of the stripped password; see RegisterThenLogin |
| App.Listed | app.py:25 | a row is listed exactly when its stored status string is not `Inactive`, so banned rows are listed; see Index |
| App.Authorize | app.py:142-158 | access is granted exactly when a session user exists, that user's row and role exist, the role name is the required one and the role holds the token; each denial is tied to its cause in the handler's order: no session gives not-logged-in, a session id without a user row gives user-not-found, a user whose role row is missing gives role-not-found, a wrong role name gives unauthorised-role, and (the remaining case) a missing token gives unauthorised-permission |
| App.CheckSession | app.py:30-35 | the answer is success exactly when a user id is in the session, and that id is returned |
| App.Login | app.py:37-59 | the answer is the login decision; on success the session holds a user whose e-mail is the normalised address and whose hash matches the stripped password; otherwise the session is unchanged |
| App.LoginSucceedsIff | app.py:37-59 | login succeeds exactly for a stored user with the normalised address and the hash of the stripped password; an all-whitespace field gets the "required" answer; every other failure, unknown address or wrong password, gets the single "invalid credentials" answer |
| App.Logout | app.py:61-66 | the session no longer holds a user |
| App.Register | app.py:68-135 | the answer is the registration decision; an id is returned exactly on success, and then exactly one user is added under that fresh key, built from the stripped fields, the normalised e-mail and the hash of the stripped password, with the `user` role; on any failure no user is added; uniqueness and foreign keys are kept; the session is not touched |
| App.RegisterChecksOutcomes | app.py:79-114 | registration succeeds exactly when all six checks pass, and fails on the duplicate e-mail exactly when the first four pass and the address is already stored |
| App.RegisterThenLogin | app.py:68-135 | right after a successful registration, logging in with the same e-mail and password succeeds |
| App.RegisterCaseVariantTaken | app.py:105-107 | once an address is registered, registering it again in any ASCII letter case fails on the uniqueness check, provided the second attempt passes the password, confirmation and name checks |
| App.SuperadminLogin | database.py:66-73 | the superadmin can log in only if the configured e-mail is already stripped and lower-case and the configured password has no surrounding whitespace; under those conditions logging in with both values succeeds |
| App.CreateContent | app.py:137-183 | the answer is the create decision; an id is returned exactly on success, and then one `Active` item is added under that fresh key with the stripped quote, the session user as creator, and both times set to now; on failure nothing changes; no item is lost or reparented, `Inactive` stays final, and the invariants hold |
| App.CreateSucceedsIff | app.py:137-163 | creating succeeds exactly for a session user whose role exists, is named `user` and holds `create_own_content`, with a quote that is not all whitespace |
| App.UpdateContent | app.py:185-227 | the answer is the update decision (missing item: not found); on success only the quote and the update time of that item change, a blank new quote keeps the old quote, and the status and creator stay as they were whoever the caller is |
| App.DeleteContent | app.py:229-261 | after authorisation the answer is always success; an existing item becomes `Inactive` with a new update time, whatever its status; a missing id changes nothing |
| App.BanContent | app.py:263-304 | the answer is the ban decision (missing item: not found); `Active` becomes `Ban` and `Ban` becomes `Inactive`, each with a new update time; an `Inactive` item is not written at all |
| App.ToggleSettles | app.py:290-297 | one ban turns `Active` into `Ban`, two or more turn it `Inactive`, and `Inactive` is a fixed point of any number of bans |
| App.BanThreeTimes | app.py:290-298 | three ban requests on an `Active` item ban it, then retire it, and then leave it untouched, timestamp included |
| App.InactiveIsFinal | app.py:213-297 | editing keeps the status, `Ban` included; deleting always gives `Inactive`; banning never gives `Active` and leaves an `Inactive` item exactly as it was |
| App.EvolvesTransitive | app.py:137-304 | a run of content handlers, like each single one, loses no item, never changes a creator or a creation time, and never brings an item back from `Inactive` |
| App.Index | app.py:22-28 | the listing holds, once each, exactly the items that are not `Inactive` (banned ones included), each with its quote |
| App.ListUsers | app.py:306-339 | the answer is the list-users decision; on success every user appears exactly once with their e-mail; on failure the list is empty |
| App.SeededAuthorization | app.py:154-158 | with the seeded roles, each handler's role-name test and token test admit the same users: writing content is for `user` only, banning for `admin` only, listing users and changing roles for `superadmin` only |
| App.ManageRole | app.py:341-403 | the answer is the role-change decision; on success only the target's role changes, its new role is named the stripped requested name, and nothing changes exactly when the target already has that role; a missing target role or a missing requested role changes nothing; the invariants hold |
| App.ManageRoleEligibility | app.py:365-384 | a role change succeeds exactly when the caller is an authorised superadmin, the target is stored with role `user` or `admin`, and the stripped request is `user` or `admin` and names a stored role; a superadmin is never changed |

## Left out

- Flask routing, `jsonify`, `redirect`, templates and HTTP status numbers: each response is one `Outcome` value.
- The session's transport and its lifetime (flask_session, the 30-day permanent session): the session is one optional user id.
- argon2 hashing and salting through passlib: a stored hash is an ideal hash that accepts exactly its own password.
- SQLAlchemy engines, sessions and `get_db`, `get_current_user` (utils.py:21-65), and the SUPABASE_URL setting. Tables are maps and each commit is one map update.
- Exceptions and rollback. Only the two exception paths reachable from well-formed requests are modelled: `manage_role` reads `target_role.name` before its `None` check, and it dereferences a missing requested role. Both end in `InternalError` with no change. Malformed ids in URLs, database failures and integrity errors are not modelled.
- The check-then-write race on the ban toggle, and all other concurrency: each handler is one atomic step.
- Real date-times and time zones: the clock is an integer that `Advance` only moves forward. One clock reading stamps both times of a new content row, whereas app.py:170-171 calls `datetime.now` twice, so there `updated_at` can be a little later than `created_at`.
- models.py's column defaults for `status` (models.py:41) and for `created_at`/`updated_at` (models.py:43-44, evaluated once when the module loads): the one handler that inserts a content row (app.py:166-172) sets all three explicitly, so the defaults are never used.
- The `init_db` branch for a missing superadmin role (database.py:63-64): it cannot be taken after the roles were just committed.
- Utils.IsValidEmail: it is proved to be the pattern's language (SplitEmail, EmailFromParts) only for strings without a final newline; the one-trailing-newline case is modelled but the handlers never reach it, since they strip first.
- Utils.Lower: it lower-cases ASCII letters only, not the full Unicode mapping of `str.lower()`.
- App.Index and App.ListUsers: the order of rows is whatever the database returns, so the contracts fix the set of rows, not their order.
- `print` logging and tailwind.config.js: they produce no observable state.
- Keys are natural numbers rather than random UUIDs. `NewId` always returns an unused key, so UUID collisions are not modelled.
- Ownership checks for editing and deleting: the code has none (app.py:185-255), so the model has none.
