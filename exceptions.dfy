/** The domain errors of the service and the two result shapes the handlers return. */
module Exceptions {

  /** One constructor per exception class; the two phone errors carry their `wait_seconds` payload. */
  datatype Error =
    | UserAlreadyExist
    | UserNotFound
    | ConfirmObjNotFound
    | ConfirmObjNotConfirmed
    | ConfirmCodeExpired
    | PasswordNotEqual
    | IncorrectPhone
    | ConfirmPhoneExcMaxCountSend(waitSeconds: int)
    | ConfirmPhoneWaitBeforeSending(waitSeconds: int)
    | ValueError(message: string)

  /** A nullable value. */
  datatype Option<+T> = None | Some(value: T)

  /** A value, or the error that was raised instead. */
  datatype Result<+T> = Ok(value: T) | Err(error: Error)

  /** A procedure that returns nothing, or the error that was raised instead. */
  datatype Outcome = Pass | Fail(error: Error)
}
