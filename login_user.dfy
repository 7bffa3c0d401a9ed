/** Password login. With two-factor login enabled the user gets no session
    token yet, only a short-lived temp token for the second step. */
module LoginUser {
  import opened Common
  import opened Text
  import opened Users
  import opened Tokens

  const EmailRequired := "Email is required"
  const PasswordRequired := "Password is required"
  const InvalidCredentials := "Invalid email or password"

  /** `{ user, token, otpRequired?, tempToken? }`. */
  datatype LoginUserOutput = LoginUserOutput(user: UserView, token: Token, otpRequired: Option<bool>, tempToken: Option<Token>)

  /** The use case on the user store; `hash` stands for `bcrypt.hash`. The
      e-mail is trimmed for the emptiness check only; the password is not
      trimmed. */
  function Login(users: map<string, User>, email: string, password: string, hash: (string, string) -> string): (r: Result<LoginUserOutput>)
    requires WellFormed(users)
    ensures IsBlank(email) ==> r == Err(EmailRequired)
    ensures !IsBlank(email) && password == "" ==> r == Err(PasswordRequired)
    ensures !IsBlank(email) && password != "" && Users.Login(users, email, password, hash).None? ==> r == Err(InvalidCredentials)
    ensures r.Ok? <==> !IsBlank(email) && password != "" && Users.Login(users, email, password, hash).Some?
    ensures r.Ok? ==>
      var u := Users.Login(users, email, password, hash).value;
      && u.id in users && u.email == email
      && r.value.user == ViewOf(u)
      && (u.otpEnable == 1 ==>
            r.value.token == EmptyToken && r.value.otpRequired == Some(true)
            && r.value.tempToken == Some(Jwt(PendingClaims(u.id, OtpVerificationPurpose), "5m")))
      && (u.otpEnable != 1 ==>
            r.value.token == Jwt(SessionClaims(PayloadOf(u)), "1d")
            && r.value.otpRequired.None? && r.value.tempToken.None?)
  {
    if email == "" || Trim(email) == "" then Err(EmailRequired)
    else if password == "" then Err(PasswordRequired)
    else match Users.Login(users, email, password, hash)
      case None => Err(InvalidCredentials)
      case Some(user) =>
        if user.otpEnable == 1 then
          Ok(LoginUserOutput(ViewOf(user), EmptyToken, Some(true), Some(SignTempToken(user.id))))
        else
          Ok(LoginUserOutput(ViewOf(user), GenerateSignature(PayloadOf(user)), None, None))
  }

  /** A login never yields a usable session token and a temp token at once:
      exactly one of the two is present. */
  lemma SessionOrPending(users: map<string, User>, email: string, password: string, hash: (string, string) -> string)
    requires WellFormed(users)
    requires Login(users, email, password, hash).Ok?
    ensures var out := Login(users, email, password, hash).value;
      (out.token == EmptyToken) <==> out.tempToken.Some?
  {
  }
}
