/** `change_password` and `change_password_by_confirm`. */
module Password {
  import opened Exceptions
  import opened Choices
  import opened ConfirmModels
  import opened UserModels
  import opened Database
  import opened ConfirmManagers
  import opened UserUtils

  /** `change_password(user, password, confirm_password)` for the signed-in user `userId`; `salt` is the hasher's draw. */
  method ChangePassword(db: Db, userId: UserId, password: string, confirmPassword: string, salt: string)
    returns (r: Outcome)
    requires db.Valid() && userId in db.users
    modifies db`users
    ensures db.Valid()
    ensures password != confirmPassword ==> r == Fail(PasswordNotEqual) && db.users == old(db.users)
    ensures password == confirmPassword ==>
              r == Pass && db.users == old(db.users)[userId := old(db.users)[userId].(password := Some(MakePassword(password, salt)))]
  {
    r := PasswdIsEqual(password, confirmPassword);
    if r.Fail? {
      return;
    }
    var u := db.users[userId];
    ghost var users' := db.users[userId := u.(password := Some(MakePassword(password, salt)))];
    assert forall id, obj :: id in users' ==> Contact(users'[id], obj) == Contact(db.users[id], obj);
    db.users := db.users[userId := u.(password := Some(MakePassword(password, salt)))];
  }

  /**
   * `change_password_by_confirm(secret_code, password, confirm_password, object_confirm)`:
   * every user holding the confirmed contact gets the new hash, and the confirmation is spent.
   */
  method ChangePasswordByConfirm(db: Db, secretCode: Uuid, password: string, confirmPassword: string,
                                 objectConfirm: ObjConfirm, salt: string) returns (r: Outcome)
    requires db.Valid()
    modifies db`emailConfirms, db`phoneConfirms, db`users
    ensures db.Valid()
    ensures password != confirmPassword ==> r == Fail(PasswordNotEqual) && unchanged(db)
    ensures password == confirmPassword ==>
              var found := old(GetConfirmedIn(db, objectConfirm, secretCode, ResetPass));
              && (found.Err? ==> r == Fail(found.error) && unchanged(db))
              && (found.Ok? && !old(ContactTaken(db.users, objectConfirm, found.value)) ==>
                    && r == Fail(UserNotFound)
                    && db.OnlyDeleted(objectConfirm, found.value)
                    && db.users == old(db.users))
              && (found.Ok? && old(ContactTaken(db.users, objectConfirm, found.value)) ==>
                    && r == Pass
                    && db.OnlyDeleted(objectConfirm, found.value)
                    && db.users == WithPassword(old(db.users), objectConfirm, found.value, MakePassword(password, salt)))
    ensures r.Pass? || r == Fail(UserNotFound) ==>
              forall tc :: GetConfirmedIn(db, objectConfirm, secretCode, tc) == Err(ConfirmObjNotFound)
  {
    r := PasswdIsEqual(password, confirmPassword);
    if r.Fail? {
      return;
    }
    var found := GetConfirmedIn(db, objectConfirm, secretCode, ResetPass);
    if found.Err? {
      return Fail(found.error);
    }
    var contact := found.value;
    if !ContactTaken(db.users, objectConfirm, contact) {
      DeleteConfirmation(db, objectConfirm, contact, secretCode, ResetPass);
      r := Fail(UserNotFound);
    } else {
      WithPasswordKeepsValid(db.users, db.nextUserId, db.groups, objectConfirm, contact, MakePassword(password, salt));
      db.users := WithPassword(db.users, objectConfirm, contact, MakePassword(password, salt));
      DeleteConfirmation(db, objectConfirm, contact, secretCode, ResetPass);
    }
  }

  /**
   * After a reset with `newPassword`, the user holding the contact (if any) opens with the
   * new password and with no other, and every user not holding it keeps the password it had.
   */
  lemma ResetChangesOnlyThatAccount(users: map<UserId, User>, obj: ObjConfirm, contact: string,
                                    newPassword: string, salt: string, id: UserId, password: string)
    requires ContactsUnique(users)
    requires id in users
    ensures var users' := WithPassword(users, obj, contact, MakePassword(newPassword, salt));
            && (Contact(users[id], obj) == Some(contact) ==>
                  (CheckPassword(password, users'[id].password) <==> password == newPassword))
            && (Contact(users[id], obj) != Some(contact) ==> users'[id].password == users[id].password)
  {
  }
}
