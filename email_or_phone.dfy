/** `change_email_or_phone`: moves a signed-in user to a newly confirmed email or phone. */
module EmailOrPhone {
  import opened Exceptions
  import opened Choices
  import opened ConfirmModels
  import opened UserModels
  import opened Database
  import opened ConfirmManagers

  /** `change_email_or_phone(secret_code, user_change, object_confirm)` for the signed-in user `actor`. */
  method ChangeEmailOrPhone(db: Db, secretCode: Uuid, actor: UserId, objectConfirm: ObjConfirm) returns (r: Outcome)
    requires db.Valid() && actor in db.users
    modifies db`emailConfirms, db`phoneConfirms, db`users
    ensures db.Valid()
    ensures var found := old(GetConfirmedIn(db, objectConfirm, secretCode, Change));
            && (found.Err? ==> r == Fail(found.error) && unchanged(db))
            && (found.Ok? && old(ContactTaken(db.users, objectConfirm, found.value)) ==>
                  && r == Fail(UserAlreadyExist)
                  && db.OnlyDeleted(objectConfirm, found.value)
                  && db.users == old(db.users))
            && (found.Ok? && !old(ContactTaken(db.users, objectConfirm, found.value)) ==>
                  && r == Pass
                  && db.OnlyDeleted(objectConfirm, found.value)
                  && db.users == old(db.users)[actor := SetContact(old(db.users)[actor], objectConfirm, found.value)])
    ensures r.Pass? || r == Fail(UserAlreadyExist) ==>
              forall tc :: GetConfirmedIn(db, objectConfirm, secretCode, tc) == Err(ConfirmObjNotFound)
  {
    var found := GetConfirmedIn(db, objectConfirm, secretCode, Change);
    if found.Err? {
      return Fail(found.error);
    }
    var contact := found.value;
    if ContactTaken(db.users, objectConfirm, contact) {
      DeleteConfirmation(db, objectConfirm, contact, secretCode, Change);
      r := Fail(UserAlreadyExist);
    } else {
      SetContactKeepsValid(db.users, db.nextUserId, db.groups, actor, objectConfirm, contact);
      db.users := db.users[actor := SetContact(db.users[actor], objectConfirm, contact)];
      DeleteConfirmation(db, objectConfirm, contact, secretCode, Change);
      r := Pass;
    }
  }

  /** A change that took place leaves the actor the only holder of the new contact, and every other user as before. */
  lemma ChangedContactIsOwnedByActor(users: map<UserId, User>, actor: UserId, obj: ObjConfirm, contact: string, id: UserId)
    requires ContactsUnique(users) && actor in users && !ContactTaken(users, obj, contact)
    requires id in users
    ensures var users' := users[actor := SetContact(users[actor], obj, contact)];
            && (Contact(users'[id], obj) == Some(contact) <==> id == actor)
            && (id != actor ==> users'[id] == users[id])
  {
  }
}
