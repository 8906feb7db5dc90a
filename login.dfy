/** `login_by_email` and `login_by_phone`: read-only password checks that issue tokens. */
module Login {
  import opened Exceptions
  import opened Choices
  import opened Text
  import opened UserModels
  import opened UserUtils
  import opened ConfirmUtils

  /** `User.objects.filter(<column>=value)` followed by `.get()`; the unique constraint makes the row unique. */
  function FindUser(users: map<UserId, User>, obj: ObjConfirm, value: string): (r: Option<UserId>)
    requires ContactsUnique(users)
    ensures r.Some? <==> ContactTaken(users, obj, value)
    ensures r.Some? ==> r.value in users && Contact(users[r.value], obj) == Some(value)
  {
    if ContactTaken(users, obj, value) then
      var id :| id in users && Contact(users[id], obj) == Some(value);
      Some(id)
    else
      None
  }

  /** The user holding the contact whose password matches; both kinds of failure are the same UserNotFound. */
  function Authenticate(users: map<UserId, User>, obj: ObjConfirm, value: string, password: string): (r: Result<UserId>)
    requires ContactsUnique(users)
    ensures r.Ok? <==> exists id :: id in users && Contact(users[id], obj) == Some(value) && CheckPassword(password, users[id].password)
    ensures r.Ok? ==> r.value in users && Contact(users[r.value], obj) == Some(value)
    ensures r.Err? ==> r.error == UserNotFound
  {
    match FindUser(users, obj, value)
    case None => Err(UserNotFound)
    case Some(id) => if CheckPassword(password, users[id].password) then Ok(id) else Err(UserNotFound)
  }

  /** `login_by_email(email, password)`: the email is lowered before the lookup. */
  function LoginByEmail(users: map<UserId, User>, email: string, password: string): (r: Result<map<string, Token>>)
    requires ContactsUnique(users)
    ensures r.Ok? <==> exists id :: id in users && users[id].email == Some(Lower(email)) && CheckPassword(password, users[id].password)
    ensures r.Ok? ==> exists id :: id in users && users[id].email == Some(Lower(email)) && r.value == GetJwtTokens(id)
    ensures r.Err? ==> r.error == UserNotFound
  {
    match Authenticate(users, Email, Lower(email), password)
    case Err(e) => Err(e)
    case Ok(id) => Ok(GetJwtTokens(id))
  }

  /** `login_by_phone(phone, region, password)`: an unparsable number fails before any lookup. */
  function LoginByPhone(users: map<UserId, User>, normalizer: PhoneNormalizer, phone: string, region: PhoneRegion,
                        password: string): (r: Result<map<string, Token>>)
    requires ContactsUnique(users)
    ensures normalizer(phone, region).None? ==> r == Err(IncorrectPhone)
    ensures normalizer(phone, region).Some? ==>
              var e164 := normalizer(phone, region).value;
              && (r.Ok? <==> exists id :: id in users && users[id].phone == Some(e164) && CheckPassword(password, users[id].password))
              && (r.Ok? ==> exists id :: id in users && users[id].phone == Some(e164) && r.value == GetJwtTokens(id))
              && (r.Err? ==> r.error == UserNotFound)
  {
    match NormalizationPhoneNumber(normalizer, phone, region)
    case Err(e) => Err(e)
    case Ok(e164) =>
      match Authenticate(users, Phone, e164, password)
      case Err(e) => Err(e)
      case Ok(id) => Ok(GetJwtTokens(id))
  }

  /** The letter case of the email typed at login does not matter. */
  lemma LoginByEmailIgnoresCase(users: map<UserId, User>, email: string, password: string)
    requires ContactsUnique(users)
    ensures LoginByEmail(users, Upper(email), password) == LoginByEmail(users, email, password)
  {
    LowerOfUpper(email);
  }

  /** A user whose stored email is the lowered form of what is typed, with the password hashed from the one typed, logs in and gets their own tokens. */
  lemma OwnPasswordLogsIn(users: map<UserId, User>, id: UserId, email: string, password: string, salt: string)
    requires ContactsUnique(users)
    requires id in users && users[id].email == Some(Lower(email))
    requires users[id].password == Some(MakePassword(password, salt))
    ensures LoginByEmail(users, email, password) == Ok(GetJwtTokens(id))
  {
  }

  /** Any other password is refused with the same error as an unknown email. */
  lemma WrongPasswordLooksLikeUnknownUser(users: map<UserId, User>, id: UserId, email: string,
                                          password: string, guess: string, salt: string)
    requires ContactsUnique(users)
    requires id in users && users[id].email == Some(Lower(email))
    requires users[id].password == Some(MakePassword(password, salt))
    requires guess != password
    ensures LoginByEmail(users, email, guess) == Err(UserNotFound)
    ensures LoginByEmail(users - {id}, email, guess) == Err(UserNotFound)
  {
  }
}
