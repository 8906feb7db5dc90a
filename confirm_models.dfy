/**
 * The two confirmation tables (ConfirmEmail, ConfirmPhone) and the timing rules derived
 * from a record, the current time and the settings.
 */
module ConfirmModels {
  import opened Choices
  import opened Settings

  /** A point in time, in microseconds (the resolution of the stored datetimes). */
  type Instant = int

  const MicrosPerSecond: int := 1_000_000
  const SecondsPerHour: int := 3600

  /** A 128-bit UUID (secret_code); only equality is used. */
  type Uuid = bv128

  /** The columns of BaseConfirmation; also the dict that generate_confirm_data builds. */
  datatype ConfirmData = ConfirmData(
    secretCode: Uuid,
    confirmCode: string,
    createdAt: Instant,
    confirmed: bool,
    typeConfirm: TypeConfirm)

  /**
   * A row of a confirmation table: its primary key, the shared columns and the table's own
   * columns. The unique contact column (email or phone) is the key of the table's map.
   */
  datatype Confirmation<Own> = Confirmation(id: nat, data: ConfirmData, own: Own)

  /** ConfirmEmail has no column besides the shared ones and `email`. */
  datatype EmailColumns = EmailColumns

  /** ConfirmPhone adds `count_send`, whose default is 1. */
  datatype PhoneColumns = PhoneColumns(countSend: nat)

  const DefaultCountSend: nat := 1

  type ConfirmEmail = Confirmation<EmailColumns>
  type ConfirmPhone = Confirmation<PhoneColumns>

  /** A confirmation table, keyed by its unique contact column. */
  type Table<Own> = map<string, Confirmation<Own>>

  /** The table's constraints: primary keys below the next free id and distinct, secret_code unique. */
  ghost predicate TableValid<Own>(t: Table<Own>, nextId: nat) {
    && (forall k :: k in t ==> t[k].id < nextId)
    && (forall k, k' :: k in t && k' in t && k != k' ==> t[k].id != t[k'].id)
    && SecretsUnique(t)
  }

  ghost predicate SecretsUnique<Own>(t: Table<Own>) {
    forall k, k' :: k in t && k' in t && k != k' ==> t[k].data.secretCode != t[k'].data.secretCode
  }

  /** A freshly drawn uuid4 collides with no row of the table. */
  ghost predicate SecretIsFresh<Own>(t: Table<Own>, secret: Uuid) {
    forall k :: k in t ==> t[k].data.secretCode != secret
  }

  /** Writing a row with a fresh secret, keeping the id of the row it replaces or taking the next id, keeps the table valid. */
  lemma UpsertKeepsTableValid<Own>(t: Table<Own>, nextId: nat, k: string, row: Confirmation<Own>)
    requires TableValid(t, nextId) && SecretIsFresh(t, row.data.secretCode)
    requires k in t ==> row.id == t[k].id
    requires k !in t ==> row.id == nextId
    ensures TableValid(t[k := row], if k in t then nextId else nextId + 1)
  {
  }

  /** Changing a row's columns other than id and secret_code keeps the table valid. */
  lemma RewriteKeepsTableValid<Own>(t: Table<Own>, nextId: nat, k: string, row: Confirmation<Own>)
    requires TableValid(t, nextId) && k in t
    requires row.id == t[k].id && row.data.secretCode == t[k].data.secretCode
    ensures TableValid(t[k := row], nextId)
  {
  }

  /** Deleting a row keeps the table valid. */
  lemma DeleteKeepsTableValid<Own>(t: Table<Own>, nextId: nat, k: string)
    requires TableValid(t, nextId)
    ensures TableValid(t - {k}, nextId)
  {
  }

  /** `int(d.total_seconds())`: a microsecond difference truncated toward zero to whole seconds. */
  function TruncSeconds(d: int): (s: int)
    ensures d >= 0 ==> 0 <= s && s * MicrosPerSecond <= d < s * MicrosPerSecond + MicrosPerSecond
    ensures d < 0 ==> s <= 0 && d <= s * MicrosPerSecond && s * MicrosPerSecond - MicrosPerSecond < d
  {
    if d >= 0 then d / MicrosPerSecond else -((-d) / MicrosPerSecond)
  }

  /** Whole seconds since the record was (re)generated, as `passed_seconds_after_sending`. */
  function PassedSeconds(createdAt: Instant, now: Instant): int {
    TruncSeconds(now - createdAt)
  }

  /** Truncation keeps the order of its arguments. */
  lemma TruncSecondsMonotone(d1: int, d2: int)
    requires d1 <= d2
    ensures TruncSeconds(d1) <= TruncSeconds(d2)
  {
  }

  /** A whole number of seconds is measured exactly. */
  lemma PassedWholeSeconds(createdAt: Instant, seconds: nat)
    ensures PassedSeconds(createdAt, createdAt + seconds * MicrosPerSecond) == seconds
  {
  }

  /** `created_at + timedelta(hours=ttl_hours) < now` */
  predicate IsExpired(createdAt: Instant, ttlHours: nat, now: Instant) {
    createdAt + ttlHours * SecondsPerHour * MicrosPerSecond < now
  }

  /** ConfirmEmail.is_expired */
  predicate EmailIsExpired(cfg: Config, r: ConfirmEmail, now: Instant) {
    IsExpired(r.data.createdAt, cfg.emailVerTtlHours, now)
  }

  /** ConfirmPhone.is_expired */
  predicate PhoneIsExpired(cfg: Config, r: ConfirmPhone, now: Instant) {
    IsExpired(r.data.createdAt, cfg.phoneVerTtlHours, now)
  }

  /** A record exactly TTL old is still valid; one microsecond later it has expired. */
  lemma ExpiryBoundary(createdAt: Instant, ttlHours: nat)
    ensures !IsExpired(createdAt, ttlHours, createdAt + ttlHours * SecondsPerHour * MicrosPerSecond)
    ensures IsExpired(createdAt, ttlHours, createdAt + ttlHours * SecondsPerHour * MicrosPerSecond + 1)
    ensures forall now :: now <= createdAt ==> !IsExpired(createdAt, ttlHours, now)
  {
  }

  /** A record created TTL + 1 hours before `now` has expired, in either table. */
  lemma ExpiredAfterTtlPlusOneHour(cfg: Config, e: ConfirmEmail, p: ConfirmPhone, now: Instant)
    requires e.data.createdAt == now - (cfg.emailVerTtlHours + 1) * SecondsPerHour * MicrosPerSecond
    requires p.data.createdAt == now - (cfg.phoneVerTtlHours + 1) * SecondsPerHour * MicrosPerSecond
    ensures EmailIsExpired(cfg, e, now)
    ensures PhoneIsExpired(cfg, p, now)
  {
  }

  /** Once expired, a record stays expired as time goes on. */
  lemma ExpiryIsPermanent(createdAt: Instant, ttlHours: nat, now: Instant, later: Instant)
    requires IsExpired(createdAt, ttlHours, now) && now <= later
    ensures IsExpired(createdAt, ttlHours, later)
  {
  }

  /** ConfirmPhone.count_resend: sends left before the maximum. */
  function CountResend(cfg: Config, r: ConfirmPhone): (left: int)
    ensures left <= cfg.phoneConfirmCodeCountSend
    ensures left > 0 <==> r.own.countSend < cfg.phoneConfirmCodeCountSend
  {
    cfg.phoneConfirmCodeCountSend - r.own.countSend
  }

  /** ConfirmPhone.sec_resend: seconds left before the code may be sent again. */
  function SecResend(cfg: Config, r: ConfirmPhone, now: Instant): (sec: int)
    ensures 0 <= sec
    ensures r.data.createdAt <= now ==> sec <= cfg.phoneConfirmStepWaitingSeconds * r.own.countSend
    ensures CountResend(cfg, r) <= 0 ==> sec == 0
    ensures sec > 0 ==> PassedSeconds(r.data.createdAt, now) < cfg.phoneConfirmStepWaitingSeconds * r.own.countSend
  {
    if CountResend(cfg, r) <= 0 then 0
    else
      var countSecResend := cfg.phoneConfirmStepWaitingSeconds * r.own.countSend;
      var countSec := countSecResend - PassedSeconds(r.data.createdAt, now);
      if countSec < 0 then 0 else countSec
  }

  /** ConfirmPhone.count_sec_wait_renewal_sending: seconds left before the send counter resets. */
  function CountSecWaitRenewalSending(cfg: Config, r: ConfirmPhone, now: Instant): (sec: int)
    ensures 0 <= sec
    ensures r.data.createdAt <= now ==> sec <= cfg.phoneConfirmResetCountSendSeconds
    ensures sec == 0 <==> PassedSeconds(r.data.createdAt, now) >= cfg.phoneConfirmResetCountSendSeconds
  {
    var countSec := cfg.phoneConfirmResetCountSendSeconds - PassedSeconds(r.data.createdAt, now);
    if countSec < 0 then 0 else countSec
  }

  /** While sends are left, sec_resend is the backoff step times the sends so far, less the seconds passed (floored at 0). */
  lemma SecResendWhileSendsLeft(cfg: Config, r: ConfirmPhone, now: Instant)
    requires r.own.countSend < cfg.phoneConfirmCodeCountSend
    ensures var w := cfg.phoneConfirmStepWaitingSeconds * r.own.countSend - PassedSeconds(r.data.createdAt, now);
            SecResend(cfg, r, now) == if w < 0 then 0 else w
  {
  }

  /** Right after (re)generation, with sends left, the wait is the whole backoff step. */
  lemma SecResendAtGeneration(cfg: Config, r: ConfirmPhone)
    requires r.own.countSend < cfg.phoneConfirmCodeCountSend
    ensures SecResend(cfg, r, r.data.createdAt) == cfg.phoneConfirmStepWaitingSeconds * r.own.countSend
  {
  }

  /** sec_resend never grows as time passes. */
  lemma SecResendNonIncreasing(cfg: Config, r: ConfirmPhone, now: Instant, later: Instant)
    requires now <= later
    ensures SecResend(cfg, r, later) <= SecResend(cfg, r, now)
  {
  }

  /** The reset window never grows as time passes, and reaches 0 once it has fully elapsed. */
  lemma WaitRenewalNonIncreasing(cfg: Config, r: ConfirmPhone, now: Instant, later: Instant)
    requires now <= later
    ensures CountSecWaitRenewalSending(cfg, r, later) <= CountSecWaitRenewalSending(cfg, r, now)
    ensures CountSecWaitRenewalSending(cfg, r, now) == 0 ==> CountSecWaitRenewalSending(cfg, r, later) == 0
  {
  }

  /** Right after (re)generation the whole reset window is left. */
  lemma WaitRenewalAtGeneration(cfg: Config, r: ConfirmPhone)
    ensures CountSecWaitRenewalSending(cfg, r, r.data.createdAt) == cfg.phoneConfirmResetCountSendSeconds
  {
  }
}
