/** `registration`: turns a confirmed REGISTRATION code into a new user. */
module Registration {
  import opened Exceptions
  import opened Choices
  import opened ConfirmModels
  import opened UserModels
  import opened Database
  import opened ConfirmManagers
  import opened UserUtils

  /** The row `User.objects.create(password=..., is_superuser=False, <column>=contact)` adds, linked to the base group. */
  function NewUser(obj: ObjConfirm, contact: string, h: PasswordHash): (u: User)
    ensures Contact(u, obj) == Some(contact)
    ensures forall other :: other != obj ==> Contact(u, other).None?
    ensures u.password == Some(h) && !u.isSuperuser && u.groups == {BaseGroup}
  {
    match obj
    case Email => User(Some(contact), None, Some(h), false, {BaseGroup})
    case Phone => User(None, Some(contact), Some(h), false, {BaseGroup})
  }

  /**
   * `registration(secret_code, password, confirm_password, object_confirm)`; `salt` is the
   * hasher's random draw.
   */
  method Registration(db: Db, secretCode: Uuid, password: string, confirmPassword: string,
                      objectConfirm: ObjConfirm, salt: string) returns (r: Outcome)
    requires db.Valid()
    modifies db`emailConfirms, db`phoneConfirms, db`users, db`groups, db`nextUserId
    ensures db.Valid()
    ensures password != confirmPassword ==> r == Fail(PasswordNotEqual) && unchanged(db)
    ensures password == confirmPassword ==>
              var found := old(GetConfirmedIn(db, objectConfirm, secretCode, TypeConfirm.Registration));
              && (found.Err? ==> r == Fail(found.error) && unchanged(db))
              && (found.Ok? && old(ContactTaken(db.users, objectConfirm, found.value)) ==>
                    && r == Fail(UserAlreadyExist)
                    && db.OnlyDeleted(objectConfirm, found.value)
                    && db.users == old(db.users) && db.groups == old(db.groups) && db.nextUserId == old(db.nextUserId))
              && (found.Ok? && !old(ContactTaken(db.users, objectConfirm, found.value)) ==>
                    && r == Pass
                    && db.OnlyDeleted(objectConfirm, found.value)
                    && db.groups == old(db.groups) + {BaseGroup}
                    && db.users == old(db.users)[old(db.nextUserId) := NewUser(objectConfirm, found.value, MakePassword(password, salt))]
                    && db.nextUserId == old(db.nextUserId) + 1)
    ensures r.Pass? || r == Fail(UserAlreadyExist) ==>
              forall tc :: GetConfirmedIn(db, objectConfirm, secretCode, tc) == Err(ConfirmObjNotFound)
  {
    var check := PasswdIsEqual(password, confirmPassword);
    if check.Fail? {
      return check;
    }
    var found := GetConfirmedIn(db, objectConfirm, secretCode, TypeConfirm.Registration);
    if found.Err? {
      return Fail(found.error);
    }
    var contact := found.value;
    if ContactTaken(db.users, objectConfirm, contact) {
      DeleteConfirmation(db, objectConfirm, contact, secretCode, TypeConfirm.Registration);
      r := Fail(UserAlreadyExist);
    } else {
      CreateUser(db, NewUser(objectConfirm, contact, MakePassword(password, salt)));
      DeleteConfirmation(db, objectConfirm, contact, secretCode, TypeConfirm.Registration);
      r := Pass;
    }
  }

  /** `Group.objects.get_or_create(name=base)` followed by `User.objects.create(...)` and `user.groups.add(base_group)`. */
  method CreateUser(db: Db, u: User)
    requires db.Valid() && u.groups == {BaseGroup}
    requires forall obj :: Contact(u, obj).Some? ==> !ContactTaken(db.users, obj, Contact(u, obj).value)
    modifies db`users, db`groups, db`nextUserId
    ensures db.Valid()
    ensures db.groups == old(db.groups) + {BaseGroup}
    ensures db.users == old(db.users)[old(db.nextUserId) := u]
    ensures db.nextUserId == old(db.nextUserId) + 1
  {
    AddUserKeepsValid(db.users, db.nextUserId, db.groups + {BaseGroup}, u);
    db.groups := db.groups + {BaseGroup};
    db.users := db.users[db.nextUserId := u];
    db.nextUserId := db.nextUserId + 1;
  }
}
