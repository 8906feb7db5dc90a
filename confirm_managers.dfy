/** ConfirmBaseManager, shared by both confirmation tables. */
module ConfirmManagers {
  import opened Exceptions
  import opened Choices
  import opened ConfirmModels
  import opened Database

  /** The row's secret_code and type_confirm are the ones asked for. */
  predicate MatchesHandle<Own>(row: Confirmation<Own>, secretCode: Uuid, typeConfirm: TypeConfirm) {
    row.data.secretCode == secretCode && row.data.typeConfirm == typeConfirm
  }

  /**
   * `get_confirmed(secret_code, type_confirm)`: the contact key of the row with this secret
   * and purpose, provided it is confirmed. Reads the table and changes nothing; the expiry
   * time is not looked at.
   */
  function GetConfirmed<Own>(t: Table<Own>, secretCode: Uuid, typeConfirm: TypeConfirm): (r: Result<string>)
    requires SecretsUnique(t)
    ensures r.Ok? ==> r.value in t && MatchesHandle(t[r.value], secretCode, typeConfirm) && t[r.value].data.confirmed
    ensures r == Err(ConfirmObjNotFound) <==> forall k :: k in t ==> !MatchesHandle(t[k], secretCode, typeConfirm)
    ensures r == Err(ConfirmObjNotConfirmed) <==>
              exists k :: k in t && MatchesHandle(t[k], secretCode, typeConfirm) && !t[k].data.confirmed
    ensures r.Ok? || r == Err(ConfirmObjNotFound) || r == Err(ConfirmObjNotConfirmed)
  {
    if exists k | k in t :: MatchesHandle(t[k], secretCode, typeConfirm) then
      var k :| k in t && MatchesHandle(t[k], secretCode, typeConfirm);
      if !t[k].data.confirmed then Err(ConfirmObjNotConfirmed) else Ok(k)
    else
      Err(ConfirmObjNotFound)
  }

  /** A confirmed row is found by its own secret and purpose. */
  lemma GetConfirmedFindsRow<Own>(t: Table<Own>, k: string)
    requires SecretsUnique(t) && k in t && t[k].data.confirmed
    ensures GetConfirmed(t, t[k].data.secretCode, t[k].data.typeConfirm) == Ok(k)
  {
  }

  /** The right secret asked for with another purpose is "not found", never "not confirmed". */
  lemma WrongPurposeIsNotFound<Own>(t: Table<Own>, k: string, typeConfirm: TypeConfirm)
    requires SecretsUnique(t) && k in t && t[k].data.typeConfirm != typeConfirm
    ensures GetConfirmed(t, t[k].data.secretCode, typeConfirm) == Err(ConfirmObjNotFound)
  {
  }

  /** Once a handler deletes the row it consumed, the same secret is "not found" for every purpose. */
  lemma ConsumedIsNotFound<Own>(t: Table<Own>, k: string, typeConfirm: TypeConfirm)
    requires SecretsUnique(t) && k in t
    ensures SecretsUnique(t - {k})
    ensures GetConfirmed(t - {k}, t[k].data.secretCode, typeConfirm) == Err(ConfirmObjNotFound)
  {
  }

  /** `ConfirmEmail.objects.get_confirmed(...)` or `ConfirmPhone.objects.get_confirmed(...)`, by the kind asked for. */
  function GetConfirmedIn(db: Db, obj: ObjConfirm, secretCode: Uuid, typeConfirm: TypeConfirm): (r: Result<string>)
    requires SecretsUnique(db.emailConfirms) && SecretsUnique(db.phoneConfirms)
    reads db`emailConfirms, db`phoneConfirms
    ensures obj == Email ==> r == GetConfirmed(db.emailConfirms, secretCode, typeConfirm)
    ensures obj == Phone ==> r == GetConfirmed(db.phoneConfirms, secretCode, typeConfirm)
  {
    match obj
    case Email => GetConfirmed(db.emailConfirms, secretCode, typeConfirm)
    case Phone => GetConfirmed(db.phoneConfirms, secretCode, typeConfirm)
  }

  /** Deleting the row a lookup returned leaves its secret unknown to every purpose. */
  lemma DeletedHandleIsGone<Own>(t: Table<Own>, k: string, secretCode: Uuid, typeConfirm: TypeConfirm)
    requires SecretsUnique(t) && GetConfirmed(t, secretCode, typeConfirm) == Ok(k)
    ensures SecretsUnique(t - {k})
    ensures forall tc :: GetConfirmed(t - {k}, secretCode, tc) == Err(ConfirmObjNotFound)
  {
  }

  /**
   * `confirm_obj.delete()` on the row a lookup returned: that row is gone, and a repeated
   * request with the same secret finds nothing, whatever its purpose.
   */
  method DeleteConfirmation(db: Db, obj: ObjConfirm, k: string, secretCode: Uuid, typeConfirm: TypeConfirm)
    requires db.Valid() && GetConfirmedIn(db, obj, secretCode, typeConfirm) == Ok(k)
    modifies db`emailConfirms, db`phoneConfirms
    ensures db.Valid()
    ensures db.OnlyDeleted(obj, k)
    ensures forall tc :: GetConfirmedIn(db, obj, secretCode, tc) == Err(ConfirmObjNotFound)
  {
    if obj == Email {
      DeletedHandleIsGone(db.emailConfirms, k, secretCode, typeConfirm);
      DeleteKeepsTableValid(db.emailConfirms, db.nextEmailConfirmId, k);
      db.emailConfirms := db.emailConfirms - {k};
    } else {
      DeletedHandleIsGone(db.phoneConfirms, k, secretCode, typeConfirm);
      DeleteKeepsTableValid(db.phoneConfirms, db.nextPhoneConfirmId, k);
      db.phoneConfirms := db.phoneConfirms - {k};
    }
  }
}
