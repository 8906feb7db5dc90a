/** Helpers shared by the credential handlers: the password-pair check and the token issuer. */
module UserUtils {
  import opened Exceptions
  import opened UserModels
  import opened Text

  /** `passwd_is_equal(password, confirm_password)`: the two plaintexts must be identical. */
  function PasswdIsEqual(password: string, confirmPassword: string): (r: Outcome)
    ensures r == Fail(PasswordNotEqual) <==> password != confirmPassword
    ensures r == Pass <==> password == confirmPassword
  {
    if password != confirmPassword then Fail(PasswordNotEqual) else Pass
  }

  /** The check does not care which of the two strings came first. */
  lemma PasswdIsEqualSymmetric(password: string, confirmPassword: string)
    ensures PasswdIsEqual(password, confirmPassword) == PasswdIsEqual(confirmPassword, password)
  {
  }

  /** The comparison is exact: any two passwords that differ only in letter case are different. */
  lemma PasswdIsEqualCaseSensitive(password: string, confirmPassword: string)
    requires password != confirmPassword && Lower(password) == Lower(confirmPassword)
    ensures PasswdIsEqual(password, confirmPassword) == Fail(PasswordNotEqual)
  {
  }

  datatype TokenKind = Refresh | Access

  /** A JWT as the issuer hands it out: its kind and the user it was issued for. */
  datatype Token = Token(kind: TokenKind, userId: UserId)

  /** `get_jwt_tokens(user)`: a refresh token and its access token, both for that user. */
  function GetJwtTokens(userId: UserId): (tokens: map<string, Token>)
    ensures tokens.Keys == {"refresh", "access"}
    ensures tokens["refresh"] == Token(Refresh, userId)
    ensures tokens["access"] == Token(Access, userId)
  {
    map["refresh" := Token(Refresh, userId), "access" := Token(Access, userId)]
  }

  /** The tokens say whom they were issued for: different users never get the same pair. */
  lemma TokensIdentifyUser(a: UserId, b: UserId)
    requires GetJwtTokens(a) == GetJwtTokens(b)
    ensures a == b
  {
  }
}
