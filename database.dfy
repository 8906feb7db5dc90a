/** The relational store the handlers read and write: both confirmation tables, User and Group. */
module Database {
  import opened Choices
  import opened ConfirmModels
  import opened UserModels

  class Db {
    /** ConfirmEmail rows, keyed by their unique `email`. */
    var emailConfirms: Table<EmailColumns>
    /** ConfirmPhone rows, keyed by their unique `phone`. */
    var phoneConfirms: Table<PhoneColumns>
    /** User rows, keyed by primary key. */
    var users: map<UserId, User>
    /** Names of the Group rows. */
    var groups: set<GroupName>
    /** The next primary key each table hands out. */
    var nextEmailConfirmId: nat
    var nextPhoneConfirmId: nat
    var nextUserId: UserId

    /** The constraints the database enforces. */
    ghost predicate Valid()
      reads this
    {
      && TableValid(emailConfirms, nextEmailConfirmId)
      && TableValid(phoneConfirms, nextPhoneConfirmId)
      && UsersValid(users, nextUserId, groups)
    }

    /** An empty database. */
    constructor ()
      ensures Valid()
      ensures emailConfirms == map[] && phoneConfirms == map[] && users == map[] && groups == {}
    {
      emailConfirms, phoneConfirms, users, groups := map[], map[], map[], {};
      nextEmailConfirmId, nextPhoneConfirmId, nextUserId := 0, 0, 0;
    }

    /** Exactly the confirmation row keyed by `key` in the chosen table is gone; the other table is as it was. */
    twostate predicate OnlyDeleted(obj: ObjConfirm, key: string)
      reads this
    {
      && emailConfirms == (if obj == Email then old(emailConfirms) - {key} else old(emailConfirms))
      && phoneConfirms == (if obj == Phone then old(phoneConfirms) - {key} else old(phoneConfirms))
    }
  }
}
