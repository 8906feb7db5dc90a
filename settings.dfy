/** The settings the core reads, gathered into one record. */
module Settings {

  /**
   * lengthConfirmCode                  LENGTH_CONFIRM_CODE
   * emailVerTtlHours                   EMAIL_VER_TTL_HOURS
   * phoneVerTtlHours                   PHONE_VER_TTL_HOURS
   * phoneConfirmCodeCountSend          PHONE_CONFIRM_CODE_COUNT_SEND
   * phoneConfirmStepWaitingSeconds     PHONE_CONFIRM_STEP_WAITING_SECONDS
   * phoneConfirmResetCountSendSeconds  PHONE_CONFIRM_RESET_COUNT_SEND_SECONDS
   * emailTestConfirmCode               EMAIL_TEST_CONFIRM_CODE
   * phonelTestConfirmCode              PHONEL_TEST_CONFIRM_CODE (spelled as in the settings)
   */
  datatype Config = Config(
    lengthConfirmCode: nat,
    emailVerTtlHours: nat,
    phoneVerTtlHours: nat,
    phoneConfirmCodeCountSend: nat,
    phoneConfirmStepWaitingSeconds: nat,
    phoneConfirmResetCountSendSeconds: nat,
    emailTestConfirmCode: bool,
    phonelTestConfirmCode: bool)

  /** The code stored instead of a random one when a test flag is set. */
  const TestConfirmCode: string := "111111"
}
