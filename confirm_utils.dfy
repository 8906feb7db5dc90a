/** Code generation, the purpose-versus-user check and phone normalisation. */
module ConfirmUtils {
  import opened Exceptions
  import opened Choices
  import opened Settings
  import opened ConfirmModels
  import opened UserModels

  /** `string.ascii_uppercase + string.digits` */
  const Alphabet: string := "ABCDEFGHIJKLMNOPQRSTUVWXYZ0123456789"

  /** The position `random.choice` picks from the alphabet. */
  type AlphabetIndex = i: nat | i < 36

  predicate IsCodeChar(c: char) { 'A' <= c <= 'Z' || '0' <= c <= '9' }

  /** The alphabet is exactly the upper-case letters and the digits. */
  lemma AlphabetIsCodeChars()
    ensures |Alphabet| == 36
    ensures forall i :: 0 <= i < |Alphabet| ==> IsCodeChar(Alphabet[i])
    ensures forall c :: IsCodeChar(c) ==> c in Alphabet
  {
  }

  /**
   * `generate_confirm_code()`: LENGTH_CONFIRM_CODE characters, the i-th one picked by the
   * i-th draw of the random source.
   */
  function GenerateConfirmCode(cfg: Config, draw: nat -> AlphabetIndex): (code: string)
    ensures |code| == cfg.lengthConfirmCode
    ensures forall i :: 0 <= i < |code| ==> IsCodeChar(code[i])
  {
    AlphabetIsCodeChars();
    seq(cfg.lengthConfirmCode, i requires 0 <= i => Alphabet[draw(i)])
  }

  /** `generate_confirm_data(type_confirm)`, with the uuid4 value and the clock passed in. */
  function GenerateConfirmData(cfg: Config, typeConfirm: TypeConfirm, secretCode: Uuid,
                               draw: nat -> AlphabetIndex, now: Instant): (d: ConfirmData)
    ensures d.secretCode == secretCode && d.createdAt == now
    ensures !d.confirmed && d.typeConfirm == typeConfirm
    ensures |d.confirmCode| == cfg.lengthConfirmCode
    ensures forall i :: 0 <= i < |d.confirmCode| ==> IsCodeChar(d.confirmCode[i])
  {
    ConfirmData(secretCode, GenerateConfirmCode(cfg, draw), now, false, typeConfirm)
  }

  /** A `user_filter_data` dict: column name to value. */
  type UserFilter = map<string, string>

  /** A filter with one key that is 'email' has no 'phone' key. */
  lemma OneKeyFilter(filter: UserFilter)
    requires |filter| == 1 && "email" in filter
    ensures filter.Keys == {"email"}
  {
    var rest := filter.Keys - {"email"};
    assert |rest| == 0;
  }

  /** The user column a one-key filter names: 'phone' if present, else 'email'. */
  function FilterObj(filter: UserFilter): ObjConfirm {
    if "phone" in filter then Phone else Email
  }

  /**
   * `type_confirm_is_available_for_user(type_confirm, user_filter_data)`: a filter must have
   * exactly one key, 'email' or 'phone'; registration and change need the contact to be
   * free, a password reset needs it to be taken. Reads the users and changes nothing.
   */
  function TypeConfirmIsAvailableForUser(users: map<UserId, User>, typeConfirm: TypeConfirm,
                                         filter: UserFilter): (r: Outcome)
    ensures |filter| != 1 ==> r.Fail? && r.error.ValueError?
    ensures "email" !in filter && "phone" !in filter ==> r.Fail? && r.error.ValueError?
    ensures r.Fail? && r.error.ValueError? ==> |filter| != 1 || ("email" !in filter && "phone" !in filter)
    ensures |filter| == 1 && "email" in filter ==>
              r == AvailabilityFor(ContactTaken(users, Email, filter["email"]), typeConfirm)
    ensures |filter| == 1 && "phone" in filter ==>
              r == AvailabilityFor(ContactTaken(users, Phone, filter["phone"]), typeConfirm)
  {
    if |filter| != 1 then Fail(ValueError("there must be exactly one filter item"))
    else if "phone" !in filter && "email" !in filter then Fail(ValueError("the filter must be phone or email"))
    else
      assert "email" in filter ==> "phone" !in filter by {
        if "email" in filter { OneKeyFilter(filter); }
      }
      var obj := FilterObj(filter);
      var user := ContactTaken(users, obj, filter[if obj == Phone then "phone" else "email"]);
      if (typeConfirm == Registration || typeConfirm == Change) && user then Fail(UserAlreadyExist)
      else if typeConfirm == ResetPass && !user then Fail(UserNotFound)
      else Pass
  }

  /** The verdict for a valid filter, given whether a user holds the contact. */
  function AvailabilityFor(taken: bool, typeConfirm: TypeConfirm): (r: Outcome)
    ensures r == Fail(UserAlreadyExist) <==> taken && typeConfirm != ResetPass
    ensures r == Fail(UserNotFound) <==> !taken && typeConfirm == ResetPass
    ensures r.Pass? <==> (taken <==> typeConfirm == ResetPass)
  {
    if typeConfirm != ResetPass && taken then Fail(UserAlreadyExist)
    else if typeConfirm == ResetPass && !taken then Fail(UserNotFound)
    else Pass
  }

  /** The phonenumbers library: the E.164 form of a number in a region, or None if it cannot be parsed or is invalid. */
  type PhoneNormalizer = (string, PhoneRegion) -> Option<string>

  /** `normalization_phone_number(phone, region)` */
  function NormalizationPhoneNumber(normalizer: PhoneNormalizer, phone: string, region: PhoneRegion): (r: Result<string>)
    ensures r.Err? ==> r.error == IncorrectPhone
    ensures r.Ok? <==> normalizer(phone, region).Some?
    ensures r.Ok? ==> r.value == normalizer(phone, region).value
  {
    match normalizer(phone, region)
    case None => Err(IncorrectPhone)
    case Some(e164) => Ok(e164)
  }
}
