/** The User table and the password hasher the credential handlers use. */
module UserModels {
  import opened Exceptions
  import opened Choices

  type UserId = nat

  /**
   * A stored password hash. `make_password` is salted and one-way; the model keeps the
   * plaintext inside so that `check_password` can be stated, and carries the random salt.
   */
  datatype PasswordHash = PasswordHash(salt: string, secret: string)

  /** `make_password(password)` with the salt drawn by the hasher. */
  function MakePassword(password: string, salt: string): (h: PasswordHash)
    ensures CheckPassword(password, Some(h))
    ensures forall other :: CheckPassword(other, Some(h)) ==> other == password
  {
    PasswordHash(salt, password)
  }

  /** `check_password(password, encoded)`; a NULL password matches nothing. */
  predicate CheckPassword(password: string, encoded: Option<PasswordHash>) {
    encoded.Some? && encoded.value.secret == password
  }

  /** A row of the User table: the nullable unique contacts, the nullable hash and the group links. */
  datatype User = User(
    email: Option<string>,
    phone: Option<string>,
    password: Option<PasswordHash>,
    isSuperuser: bool,
    groups: set<GroupName>)

  /** The user's column that a confirmation of the given kind is about. */
  function Contact(u: User, obj: ObjConfirm): Option<string> {
    match obj
    case Email => u.email
    case Phone => u.phone
  }

  /** `User.objects.filter(email=value).exists()` or `filter(phone=value).exists()` */
  predicate ContactTaken(users: map<UserId, User>, obj: ObjConfirm, value: string) {
    exists id | id in users :: Contact(users[id], obj) == Some(value)
  }

  /** email and phone are unique among the users that have one (NULLs never clash). */
  ghost predicate ContactsUnique(users: map<UserId, User>) {
    forall a, b, obj :: a in users && b in users && a != b && Contact(users[a], obj).Some? ==>
      Contact(users[a], obj) != Contact(users[b], obj)
  }

  /** The table's constraints: ids below the next free id, unique contacts, groups that exist. */
  ghost predicate UsersValid(users: map<UserId, User>, nextId: UserId, groups: set<GroupName>) {
    && (forall id :: id in users ==> id < nextId)
    && ContactsUnique(users)
    && (forall id :: id in users ==> users[id].groups <= groups)
  }

  /** In a table with unique contacts, at most one user holds a given contact. */
  lemma ContactOwnerUnique(users: map<UserId, User>, obj: ObjConfirm, value: string, a: UserId, b: UserId)
    requires ContactsUnique(users)
    requires a in users && Contact(users[a], obj) == Some(value)
    requires b in users && Contact(users[b], obj) == Some(value)
    ensures a == b
  {
  }

  /** `user_change.email = value` or `user_change.phone = value` */
  function SetContact(u: User, obj: ObjConfirm, value: string): (u': User)
    ensures Contact(u', obj) == Some(value)
    ensures forall other :: other != obj ==> Contact(u', other) == Contact(u, other)
    ensures u'.password == u.password && u'.isSuperuser == u.isSuperuser && u'.groups == u.groups
  {
    match obj
    case Email => u.(email := Some(value))
    case Phone => u.(phone := Some(value))
  }

  /** Adding a user under the next id, with a contact nobody holds and existing groups, keeps the table valid. */
  lemma AddUserKeepsValid(users: map<UserId, User>, nextId: UserId, groups: set<GroupName>, u: User)
    requires UsersValid(users, nextId, groups)
    requires u.groups <= groups
    requires forall obj :: Contact(u, obj).Some? ==> !ContactTaken(users, obj, Contact(u, obj).value)
    ensures UsersValid(users[nextId := u], nextId + 1, groups)
  {
  }

  /** Giving a user a contact nobody holds keeps the table valid. */
  lemma SetContactKeepsValid(users: map<UserId, User>, nextId: UserId, groups: set<GroupName>,
                             id: UserId, obj: ObjConfirm, value: string)
    requires UsersValid(users, nextId, groups) && id in users
    requires !ContactTaken(users, obj, value)
    ensures UsersValid(users[id := SetContact(users[id], obj, value)], nextId, groups)
  {
  }

  /** The users that a password change by contact leaves the table with (`filter(...).update(password=h)`). */
  function WithPassword(users: map<UserId, User>, obj: ObjConfirm, value: string, h: PasswordHash): (users': map<UserId, User>)
    ensures users'.Keys == users.Keys
    ensures forall id :: id in users && Contact(users[id], obj) == Some(value) ==>
              users'[id] == users[id].(password := Some(h))
    ensures forall id :: id in users && Contact(users[id], obj) != Some(value) ==> users'[id] == users[id]
  {
    map id | id in users :: if Contact(users[id], obj) == Some(value) then users[id].(password := Some(h)) else users[id]
  }

  /** Changing passwords keeps the table valid. */
  lemma WithPasswordKeepsValid(users: map<UserId, User>, nextId: UserId, groups: set<GroupName>,
                               obj: ObjConfirm, value: string, h: PasswordHash)
    requires UsersValid(users, nextId, groups)
    ensures UsersValid(WithPassword(users, obj, value, h), nextId, groups)
  {
  }
}
