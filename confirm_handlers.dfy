/**
 * The confirmation service: creating or refreshing an email or phone confirmation (the
 * phone one behind the resend policy) and confirming one with its code.
 */
module ConfirmHandlers {
  import opened Exceptions
  import opened Choices
  import opened Settings
  import opened ConfirmModels
  import opened UserModels
  import opened ConfirmUtils
  import opened Database
  import opened Text

  /** The columns written by an email create: fresh data, with the fixed code when EMAIL_TEST_CONFIRM_CODE is set. */
  function EmailConfirmData(cfg: Config, typeConfirm: TypeConfirm, secretCode: Uuid,
                            draw: nat -> AlphabetIndex, now: Instant): (d: ConfirmData)
    ensures d.secretCode == secretCode && d.createdAt == now && !d.confirmed && d.typeConfirm == typeConfirm
    ensures cfg.emailTestConfirmCode ==> d.confirmCode == TestConfirmCode
    ensures !cfg.emailTestConfirmCode ==> d.confirmCode == GenerateConfirmCode(cfg, draw)
  {
    var d := GenerateConfirmData(cfg, typeConfirm, secretCode, draw, now);
    if cfg.emailTestConfirmCode then d.(confirmCode := TestConfirmCode) else d
  }

  /** The same for a phone create, under PHONEL_TEST_CONFIRM_CODE. */
  function PhoneConfirmData(cfg: Config, typeConfirm: TypeConfirm, secretCode: Uuid,
                            draw: nat -> AlphabetIndex, now: Instant): (d: ConfirmData)
    ensures d.secretCode == secretCode && d.createdAt == now && !d.confirmed && d.typeConfirm == typeConfirm
    ensures cfg.phonelTestConfirmCode ==> d.confirmCode == TestConfirmCode
    ensures !cfg.phonelTestConfirmCode ==> d.confirmCode == GenerateConfirmCode(cfg, draw)
  {
    var d := GenerateConfirmData(cfg, typeConfirm, secretCode, draw, now);
    if cfg.phonelTestConfirmCode then d.(confirmCode := TestConfirmCode) else d
  }

  /**
   * `create_confirm_email(email, type_confirm)`: lower-case the email, check the purpose
   * against the users, then `update_or_create` the row keyed by the email: an existing row
   * keeps its id and gets the new data, otherwise a row is inserted.
   */
  method CreateConfirmEmail(db: Db, cfg: Config, email: string, typeConfirm: TypeConfirm,
                            secretCode: Uuid, draw: nat -> AlphabetIndex, now: Instant)
    returns (r: Result<ConfirmEmail>)
    requires db.Valid()
    requires SecretIsFresh(db.emailConfirms, secretCode)
    modifies db`emailConfirms, db`nextEmailConfirmId
    ensures db.Valid()
    ensures var avail := TypeConfirmIsAvailableForUser(db.users, typeConfirm, map["email" := Lower(email)]);
            avail.Fail? ==>
              && r == Err(avail.error)
              && db.emailConfirms == old(db.emailConfirms)
              && db.nextEmailConfirmId == old(db.nextEmailConfirmId)
    ensures var avail := TypeConfirmIsAvailableForUser(db.users, typeConfirm, map["email" := Lower(email)]);
            avail.Pass? ==>
              && r.Ok?
              && db.emailConfirms == old(db.emailConfirms)[Lower(email) := r.value]
              && r.value.data == EmailConfirmData(cfg, typeConfirm, secretCode, draw, now)
    ensures r.Ok? && Lower(email) in old(db.emailConfirms) ==>
              r.value.id == old(db.emailConfirms)[Lower(email)].id && db.nextEmailConfirmId == old(db.nextEmailConfirmId)
    ensures r.Ok? && Lower(email) !in old(db.emailConfirms) ==>
              r.value.id == old(db.nextEmailConfirmId) && db.nextEmailConfirmId == old(db.nextEmailConfirmId) + 1
  {
    var key := Lower(email);
    var avail := TypeConfirmIsAvailableForUser(db.users, typeConfirm, map["email" := key]);
    if avail.Fail? {
      return Err(avail.error);
    }
    var data := GenerateConfirmData(cfg, typeConfirm, secretCode, draw, now);
    if cfg.emailTestConfirmCode {
      data := data.(confirmCode := TestConfirmCode);
    }
    var row: ConfirmEmail;
    if key in db.emailConfirms {
      row := db.emailConfirms[key].(data := data);
    } else {
      row := Confirmation(db.nextEmailConfirmId, data, EmailColumns);
    }
    UpsertKeepsTableValid(db.emailConfirms, db.nextEmailConfirmId, key, row);
    if key !in db.emailConfirms {
      db.nextEmailConfirmId := db.nextEmailConfirmId + 1;
    }
    db.emailConfirms := db.emailConfirms[key := row];
    r := Ok(row);
  }

  /**
   * The three readings of the clock one phone request makes, in the order the code makes
   * them: the new created_at when the fresh data is generated, then the reset-window wait,
   * then (only if it gets that far) the backoff wait. The clock may move between them.
   */
  datatype SendClock = SendClock(generated: Instant, renewal: Instant, resend: Instant)

  /**
   * The resend policy applied to an existing phone row: the new `count_send`, or the
   * refusal with its wait. In order: the reset window has elapsed at `renewal` (start again
   * at 1), the maximum number of sends is spent, the backoff step has not passed at
   * `resend`, otherwise one more.
   */
  function NextCountSend(cfg: Config, row: ConfirmPhone, renewal: Instant, resend: Instant): (r: Result<nat>)
    ensures r.Ok? ==> r.value == 1 || (r.value == row.own.countSend + 1 && row.own.countSend < cfg.phoneConfirmCodeCountSend)
    ensures r.Ok? ==> 1 <= r.value <= if cfg.phoneConfirmCodeCountSend < 1 then 1 else cfg.phoneConfirmCodeCountSend
    ensures r.Err? ==> r.error.ConfirmPhoneExcMaxCountSend? || r.error.ConfirmPhoneWaitBeforeSending?
    ensures r.Err? ==> r.error.waitSeconds > 0
  {
    var wait := CountSecWaitRenewalSending(cfg, row, renewal);
    if wait == 0 then Ok(1)
    else if row.own.countSend >= cfg.phoneConfirmCodeCountSend then Err(ConfirmPhoneExcMaxCountSend(wait))
    else
      var sec := SecResend(cfg, row, resend);
      if sec != 0 then Err(ConfirmPhoneWaitBeforeSending(sec))
      else Ok(row.own.countSend + 1)
  }

  /**
   * The four outcomes of the resend policy, by the whole seconds passed since the last send
   * at each of the two readings.
   */
  lemma NextCountSendCases(cfg: Config, row: ConfirmPhone, renewal: Instant, resend: Instant)
    ensures var passedRenewal := PassedSeconds(row.data.createdAt, renewal);
            var passedResend := PassedSeconds(row.data.createdAt, resend);
            var reset := cfg.phoneConfirmResetCountSendSeconds;
            var step := cfg.phoneConfirmStepWaitingSeconds * row.own.countSend;
            var r := NextCountSend(cfg, row, renewal, resend);
            && (passedRenewal >= reset ==> r == Ok(1))
            && (passedRenewal < reset && row.own.countSend >= cfg.phoneConfirmCodeCountSend ==>
                  r == Err(ConfirmPhoneExcMaxCountSend(reset - passedRenewal)))
            && (passedRenewal < reset && row.own.countSend < cfg.phoneConfirmCodeCountSend && passedResend < step ==>
                  r == Err(ConfirmPhoneWaitBeforeSending(step - passedResend)))
            && (passedRenewal < reset && row.own.countSend < cfg.phoneConfirmCodeCountSend && passedResend >= step ==>
                  r == Ok(row.own.countSend + 1))
  {
  }

  /**
   * Backoff: after the n-th send (n below the maximum, its step inside the reset window),
   * a resend right away must wait the whole step n * STEP, and one whose backoff reading is
   * exactly n * STEP seconds later is allowed and makes it the (n + 1)-th send, for any
   * reset-window reading taken in between.
   */
  lemma BackoffStep(cfg: Config, row: ConfirmPhone, renewal: Instant, resend: Instant)
    requires row.own.countSend < cfg.phoneConfirmCodeCountSend
    requires 0 < cfg.phoneConfirmStepWaitingSeconds * row.own.countSend < cfg.phoneConfirmResetCountSendSeconds
    requires row.data.createdAt <= renewal <= resend
    ensures var step := cfg.phoneConfirmStepWaitingSeconds * row.own.countSend;
            && (resend == row.data.createdAt ==>
                  NextCountSend(cfg, row, renewal, resend) == Err(ConfirmPhoneWaitBeforeSending(step)))
            && (resend == row.data.createdAt + step * MicrosPerSecond ==>
                  NextCountSend(cfg, row, renewal, resend) == Ok(row.own.countSend + 1))
  {
  }

  /**
   * Cooldown: once the maximum is spent, every resend whose reset-window reading falls
   * inside the window is refused with the seconds left of it, and the first one read after
   * the window starts again at 1, whatever the backoff reading.
   */
  lemma MaxSendThenCooldown(cfg: Config, row: ConfirmPhone, renewal: Instant, resend: Instant)
    requires row.own.countSend >= cfg.phoneConfirmCodeCountSend
    requires row.data.createdAt <= renewal < row.data.createdAt + cfg.phoneConfirmResetCountSendSeconds * MicrosPerSecond
    ensures NextCountSend(cfg, row, renewal, resend)
            == Err(ConfirmPhoneExcMaxCountSend(cfg.phoneConfirmResetCountSendSeconds - PassedSeconds(row.data.createdAt, renewal)))
    ensures NextCountSend(cfg, row, row.data.createdAt + cfg.phoneConfirmResetCountSendSeconds * MicrosPerSecond, resend) == Ok(1)
  {
  }

  /** The row after the policy accepted a send whose data was generated at `at`: same id, its clock restarted at `at`, the new `count_send`. */
  function Resent(row: ConfirmPhone, at: Instant, count: nat): (row': ConfirmPhone)
    ensures row'.id == row.id && row'.data.createdAt == at && row'.own.countSend == count
  {
    row.(data := row.data.(createdAt := at), own := PhoneColumns(count))
  }

  /** Two phone rows agree on what the resend policy reads and writes: id, created_at and count_send. */
  predicate SameSendState(a: ConfirmPhone, b: ConfirmPhone) {
    a.id == b.id && a.data.createdAt == b.data.createdAt && a.own == b.own
  }

  /** Requests for the same number with the given clock readings, in order: the row after all of them, or None once one is refused. */
  function SendAll(cfg: Config, row: ConfirmPhone, clocks: seq<SendClock>): Option<ConfirmPhone>
    decreases |clocks|
  {
    if |clocks| == 0 then Some(row)
    else
      match NextCountSend(cfg, row, clocks[0].renewal, clocks[0].resend)
      case Err(_) => None
      case Ok(count) => SendAll(cfg, Resent(row, clocks[0].generated, count), clocks[1..])
  }

  /** Every request reads the reset window before it has elapsed since the previous send. */
  ghost predicate NoQuietWindow(cfg: Config, row: ConfirmPhone, clocks: seq<SendClock>)
    decreases |clocks|
  {
    |clocks| == 0 ||
    (PassedSeconds(row.data.createdAt, clocks[0].renewal) < cfg.phoneConfirmResetCountSendSeconds
     && NoQuietWindow(cfg, Resent(row, clocks[0].generated, row.own.countSend + 1), clocks[1..]))
  }

  /**
   * The rate limit over a burst: while no reset window of silence passes, every accepted
   * send adds one to `count_send`, and a number that has had c sends gets at most
   * PHONE_CONFIRM_CODE_COUNT_SEND - c more.
   */
  lemma {:induction false} BurstIsBounded(cfg: Config, row: ConfirmPhone, clocks: seq<SendClock>)
    requires SendAll(cfg, row, clocks).Some? && NoQuietWindow(cfg, row, clocks)
    ensures SendAll(cfg, row, clocks).value.own.countSend == row.own.countSend + |clocks|
    ensures |clocks| > 0 ==> row.own.countSend + |clocks| <= cfg.phoneConfirmCodeCountSend
    decreases |clocks|
  {
    if |clocks| > 0 {
      NextCountSendCases(cfg, row, clocks[0].renewal, clocks[0].resend);
      var next := Resent(row, clocks[0].generated, row.own.countSend + 1);
      BurstIsBounded(cfg, next, clocks[1..]);
    }
  }

  /** Every phone row has been sent between 1 and max(1, PHONE_CONFIRM_CODE_COUNT_SEND) times. */
  ghost predicate CountsBounded(cfg: Config, t: Table<PhoneColumns>) {
    forall k :: k in t ==>
      1 <= t[k].own.countSend <= if cfg.phoneConfirmCodeCountSend < 1 then 1 else cfg.phoneConfirmCodeCountSend
  }

  /**
   * `create_confirm_phone(phone, region, type_confirm)`: normalise the number, check the
   * purpose against the users, then `get_or_create` the row keyed by the number. A new row
   * starts at `count_send = 1` with no rate limit; an existing one goes through the resend
   * policy and is rewritten in place only when the policy allows it. The fresh data carries
   * the first clock reading, the policy uses the other two.
   */
  method CreateConfirmPhone(db: Db, cfg: Config, normalizer: PhoneNormalizer, phone: string, region: PhoneRegion,
                            typeConfirm: TypeConfirm, secretCode: Uuid, draw: nat -> AlphabetIndex, clock: SendClock)
    returns (r: Result<ConfirmPhone>)
    requires db.Valid()
    requires SecretIsFresh(db.phoneConfirms, secretCode)
    modifies db`phoneConfirms, db`nextPhoneConfirmId
    ensures db.Valid()
    ensures CountsBounded(cfg, old(db.phoneConfirms)) ==> CountsBounded(cfg, db.phoneConfirms)
    ensures r.Err? ==> db.phoneConfirms == old(db.phoneConfirms) && db.nextPhoneConfirmId == old(db.nextPhoneConfirmId)
    ensures NormalizationPhoneNumber(normalizer, phone, region).Err? ==> r == Err(IncorrectPhone)
    ensures var n := NormalizationPhoneNumber(normalizer, phone, region);
            n.Ok? ==>
              var avail := TypeConfirmIsAvailableForUser(db.users, typeConfirm, map["phone" := n.value]);
              && (avail.Fail? ==> r == Err(avail.error))
              && (avail.Pass? && n.value !in old(db.phoneConfirms) ==>
                    && r == Ok(Confirmation(old(db.nextPhoneConfirmId),
                                            PhoneConfirmData(cfg, typeConfirm, secretCode, draw, clock.generated),
                                            PhoneColumns(DefaultCountSend)))
                    && db.phoneConfirms == old(db.phoneConfirms)[n.value := r.value]
                    && db.nextPhoneConfirmId == old(db.nextPhoneConfirmId) + 1)
              && (avail.Pass? && n.value in old(db.phoneConfirms) ==>
                    var before := old(db.phoneConfirms)[n.value];
                    match NextCountSend(cfg, before, clock.renewal, clock.resend)
                    case Err(e) => r == Err(e)
                    case Ok(count) =>
                      && r == Ok(before.(data := PhoneConfirmData(cfg, typeConfirm, secretCode, draw, clock.generated),
                                         own := PhoneColumns(count)))
                      && SameSendState(r.value, Resent(before, clock.generated, count))
                      && db.phoneConfirms == old(db.phoneConfirms)[n.value := r.value]
                      && db.nextPhoneConfirmId == old(db.nextPhoneConfirmId))
  {
    var normalized := NormalizationPhoneNumber(normalizer, phone, region);
    if normalized.Err? {
      return Err(normalized.error);
    }
    var key := normalized.value;
    var avail := TypeConfirmIsAvailableForUser(db.users, typeConfirm, map["phone" := key]);
    if avail.Fail? {
      return Err(avail.error);
    }
    var data := GenerateConfirmData(cfg, typeConfirm, secretCode, draw, clock.generated);
    if cfg.phonelTestConfirmCode {
      data := data.(confirmCode := TestConfirmCode);
    }
    assert data == PhoneConfirmData(cfg, typeConfirm, secretCode, draw, clock.generated);
    if key !in db.phoneConfirms {
      var created := InsertPhone(db, key, data);
      return Ok(created);
    }
    r := ResendPhone(db, cfg, key, data, clock.renewal, clock.resend);
  }

  /** The insert `get_or_create` makes for a number without a row: the next id, the new data, `count_send = 1`. */
  method InsertPhone(db: Db, key: string, data: ConfirmData) returns (created: ConfirmPhone)
    requires db.Valid() && key !in db.phoneConfirms
    requires SecretIsFresh(db.phoneConfirms, data.secretCode)
    modifies db`phoneConfirms, db`nextPhoneConfirmId
    ensures db.Valid()
    ensures created == Confirmation(old(db.nextPhoneConfirmId), data, PhoneColumns(DefaultCountSend))
    ensures db.phoneConfirms == old(db.phoneConfirms)[key := created]
    ensures db.nextPhoneConfirmId == old(db.nextPhoneConfirmId) + 1
  {
    created := Confirmation(db.nextPhoneConfirmId, data, PhoneColumns(DefaultCountSend));
    UpsertKeepsTableValid(db.phoneConfirms, db.nextPhoneConfirmId, key, created);
    db.phoneConfirms := db.phoneConfirms[key := created];
    db.nextPhoneConfirmId := db.nextPhoneConfirmId + 1;
  }

  /**
   * The part of `create_confirm_phone` that handles an existing row (lines after
   * `get_or_create` found one): read the reset-window wait at `renewal` and, if it gets
   * that far, the backoff wait at `resend`; rewrite the row in place with the new data and
   * `count_send` when the policy allows. The rewritten row is `Resent` applied to the old
   * one at the new data's created_at, as far as the policy's columns go.
   */
  method ResendPhone(db: Db, cfg: Config, key: string, data: ConfirmData, renewal: Instant, resend: Instant)
    returns (r: Result<ConfirmPhone>)
    requires db.Valid() && key in db.phoneConfirms
    requires SecretIsFresh(db.phoneConfirms, data.secretCode)
    modifies db`phoneConfirms
    ensures db.Valid()
    ensures CountsBounded(cfg, old(db.phoneConfirms)) ==> CountsBounded(cfg, db.phoneConfirms)
    ensures match NextCountSend(cfg, old(db.phoneConfirms)[key], renewal, resend)
            case Err(e) => r == Err(e) && db.phoneConfirms == old(db.phoneConfirms)
            case Ok(count) =>
              && r == Ok(old(db.phoneConfirms)[key].(data := data, own := PhoneColumns(count)))
              && SameSendState(r.value, Resent(old(db.phoneConfirms)[key], data.createdAt, count))
              && db.phoneConfirms == old(db.phoneConfirms)[key := r.value]
  {
    var existing := db.phoneConfirms[key];
    var countSend: nat;
    var wait := CountSecWaitRenewalSending(cfg, existing, renewal);
    if wait == 0 {
      countSend := 1;
    } else {
      if existing.own.countSend >= cfg.phoneConfirmCodeCountSend {
        return Err(ConfirmPhoneExcMaxCountSend(wait));
      }
      var sec := SecResend(cfg, existing, resend);
      if sec != 0 {
        return Err(ConfirmPhoneWaitBeforeSending(sec));
      }
      countSend := existing.own.countSend + 1;
    }
    var updated := existing.(data := data, own := PhoneColumns(countSend));
    UpsertKeepsTableValid(db.phoneConfirms, db.nextPhoneConfirmId, key, updated);
    db.phoneConfirms := db.phoneConfirms[key := updated];
    r := Ok(updated);
  }

  /** The row's secret_code and confirm_code are the ones submitted and it is not confirmed yet. */
  predicate AwaitsCode<Own>(row: Confirmation<Own>, secretCode: Uuid, confirmCode: string) {
    row.data.secretCode == secretCode && row.data.confirmCode == confirmCode && !row.data.confirmed
  }

  /** `filter(secret_code=..., confirm_code=..., confirmed=False)`, then `.get()` */
  function FindUnconfirmed<Own>(t: Table<Own>, secretCode: Uuid, confirmCode: string): (r: Option<string>)
    requires SecretsUnique(t)
    ensures r.Some? ==> r.value in t && AwaitsCode(t[r.value], secretCode, confirmCode)
    ensures r.None? <==> forall k :: k in t ==> !AwaitsCode(t[k], secretCode, confirmCode)
  {
    if exists k | k in t :: AwaitsCode(t[k], secretCode, confirmCode) then
      var k :| k in t && AwaitsCode(t[k], secretCode, confirmCode);
      Some(k)
    else
      None
  }

  /** The table after `confirmed = True; save()` on row k. */
  function MarkConfirmed<Own>(t: Table<Own>, k: string): (t': Table<Own>)
    requires k in t
    ensures t'.Keys == t.Keys && t'[k].data.confirmed
    ensures t'[k] == t[k].(data := t[k].data.(confirmed := true))
    ensures forall j :: j in t && j != k ==> t'[j] == t[j]
  {
    t[k := t[k].(data := t[k].data.(confirmed := true))]
  }

  /** Confirming is one-shot: with the same secret and code, the confirmed row is not found again. */
  lemma ConfirmIsOneShot<Own>(t: Table<Own>, k: string)
    requires SecretsUnique(t) && k in t
    ensures SecretsUnique(MarkConfirmed(t, k))
    ensures FindUnconfirmed(MarkConfirmed(t, k), t[k].data.secretCode, t[k].data.confirmCode).None?
  {
  }

  /**
   * `confirm_obj(secret_code, confirm_code, object_confirmation)`: find the unconfirmed row
   * with this secret and code in the chosen table; an expired one is refused and left as it
   * is; otherwise only its `confirmed` flag is set.
   */
  method ConfirmObj(db: Db, cfg: Config, secretCode: Uuid, confirmCode: string,
                    objectConfirmation: ObjConfirm, now: Instant)
    returns (r: Outcome)
    requires db.Valid()
    modifies db`emailConfirms, db`phoneConfirms
    ensures db.Valid()
    ensures r == Pass || r == Fail(ConfirmObjNotFound) || r == Fail(ConfirmCodeExpired)
    ensures objectConfirmation == Email ==>
              && db.phoneConfirms == old(db.phoneConfirms)
              && match FindUnconfirmed(old(db.emailConfirms), secretCode, confirmCode)
                 case None => r == Fail(ConfirmObjNotFound) && db.emailConfirms == old(db.emailConfirms)
                 case Some(k) =>
                   if EmailIsExpired(cfg, old(db.emailConfirms)[k], now) then
                     r == Fail(ConfirmCodeExpired) && db.emailConfirms == old(db.emailConfirms)
                   else
                     r == Pass && db.emailConfirms == MarkConfirmed(old(db.emailConfirms), k)
    ensures objectConfirmation == Phone ==>
              && db.emailConfirms == old(db.emailConfirms)
              && match FindUnconfirmed(old(db.phoneConfirms), secretCode, confirmCode)
                 case None => r == Fail(ConfirmObjNotFound) && db.phoneConfirms == old(db.phoneConfirms)
                 case Some(k) =>
                   if PhoneIsExpired(cfg, old(db.phoneConfirms)[k], now) then
                     r == Fail(ConfirmCodeExpired) && db.phoneConfirms == old(db.phoneConfirms)
                   else
                     r == Pass && db.phoneConfirms == MarkConfirmed(old(db.phoneConfirms), k)
  {
    if objectConfirmation == Email {
      var found := FindUnconfirmed(db.emailConfirms, secretCode, confirmCode);
      if found.None? {
        return Fail(ConfirmObjNotFound);
      }
      var k := found.value;
      if EmailIsExpired(cfg, db.emailConfirms[k], now) {
        return Fail(ConfirmCodeExpired);
      }
      RewriteKeepsTableValid(db.emailConfirms, db.nextEmailConfirmId, k, MarkConfirmed(db.emailConfirms, k)[k]);
      db.emailConfirms := MarkConfirmed(db.emailConfirms, k);
    } else {
      var found := FindUnconfirmed(db.phoneConfirms, secretCode, confirmCode);
      if found.None? {
        return Fail(ConfirmObjNotFound);
      }
      var k := found.value;
      if PhoneIsExpired(cfg, db.phoneConfirms[k], now) {
        return Fail(ConfirmCodeExpired);
      }
      RewriteKeepsTableValid(db.phoneConfirms, db.nextPhoneConfirmId, k, MarkConfirmed(db.phoneConfirms, k)[k]);
      db.phoneConfirms := MarkConfirmed(db.phoneConfirms, k);
    }
    r := Pass;
  }
}
