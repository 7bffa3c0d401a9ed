/** The second login step with an authenticator code. It only reads: there is
    no failure counter on this path. */
module VerifyOtpLogin {
  import opened Common
  import opened Users
  import opened TwoFactorStore

  /** The use case on the state: `totpValid(secret, token)` stands for
      `otplib.verify` at the current time. */
  function Verify(s: State, userId: string, otpToken: string, totpValid: (string, string) -> bool): (r: Result<SessionOutput>)
    ensures r.Ok? <==>
      userId in s.users && HasSecret(s.users[userId]) && s.users[userId].otpEnable == 1
      && totpValid(s.users[userId].otpSecret.value, otpToken)
    ensures userId !in s.users ==> r == Err(UserNotFound)
    ensures userId in s.users && (!HasSecret(s.users[userId]) || s.users[userId].otpEnable != 1) ==> r == Err(OtpNotEnabled)
    ensures (userId in s.users && HasSecret(s.users[userId]) && s.users[userId].otpEnable == 1
             && !totpValid(s.users[userId].otpSecret.value, otpToken)) ==> r == Err(InvalidOtpCode)
    ensures r.Ok? ==>
      && r.value.user.id == s.users[userId].id
      && r.value.user.username == s.users[userId].username
      && r.value.user.email == s.users[userId].email
      && r.value.user.createdAt == s.users[userId].createdAt
      && r.value.token.Jwt? && r.value.token.claims.SessionClaims? && r.value.token.claims.payload == PayloadOf(s.users[userId])
  {
    if userId !in s.users then Err(UserNotFound)
    else
      var user := s.users[userId];
      if !Truthy(user.otpSecret) || user.otpEnable != 1 then Err(OtpNotEnabled)
      else if !totpValid(user.otpSecret.value, otpToken) then Err(InvalidOtpCode)
      else Ok(SessionFor(user))
  }
}
