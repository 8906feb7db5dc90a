/** The enumerations of the confirmation component and the user groups. */
module Choices {

  /** What a confirmation is for; decides which handler may consume it. */
  datatype TypeConfirm = Registration | ResetPass | Change

  /** Which confirmation table (and which user column) an operation works on. */
  datatype ObjConfirm = Email | Phone

  /** ISO 3166-1 alpha-2 region of a phone number. */
  datatype PhoneRegion = Russian | Uzbekistan

  function RegionCode(region: PhoneRegion): (code: string)
    ensures |code| == 2
  {
    match region
    case Russian => "RU"
    case Uzbekistan => "UZ"
  }

  type GroupName = string

  /** The only member of UserGroup: the group every registered user joins. */
  const BaseGroup: GroupName := "base"
}
