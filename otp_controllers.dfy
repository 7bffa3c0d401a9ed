/** The five HTTP handlers of the two-factor routes: request checks, the
    pending-token check of the two login steps, the use-case call, and the
    reply or the hand-off of the error to `next`. */
module OtpControllers {
  import opened Common
  import opened Hex
  import opened Users
  import opened Tokens
  import opened OtpBackupCodeRepository
  import opened TwoFactorStore
  import opened ResponseMiddleware
  import GenerateOtpSecret
  import VerifyAndActivateOtp
  import VerifyOtpLogin
  import VerifyBackupCode
  import DisableOtp

  const NotAuthenticated := "Not authenticated"
  const OtpTokenRequired := "OTP token is required"
  const LoginFieldsRequired := "tempToken and otpToken are required"
  const BackupFieldsRequired := "tempToken and backupCode are required"
  const InvalidTempToken := "Invalid temp token"
  const TempTokenExpired := "Temp token expired. Please login again."

  /** The statuses the handlers ask for before calling `jsonError`. */
  const Unauthorized := 401
  const BadRequest := 400

  /** What the pending-token check decides: go on with the id from the token,
      reply with an error (and the status asked for), or pass the error on
      to `next`. */
  datatype Gate = Proceed(userId: string) | Refuse(status: int, message: string) | Forward(error: string)

  /** The checks of the two login steps before the use case runs.
      `decoded` is what `jwt.verify` makes of the temp token; it is only
      consulted once both fields are present. */
  function TempTokenGate(tempToken: Option<string>, code: Option<string>, decoded: Decoded, missing: string): (g: Gate)
    ensures !Truthy(tempToken) || !Truthy(code) ==> g == Refuse(BadRequest, missing)
    ensures g.Proceed? <==>
      Truthy(tempToken) && Truthy(code) && decoded.Verified? && Purpose(decoded.claims) == Some(OtpVerificationPurpose)
    ensures g.Proceed? ==> decoded.claims.PendingClaims? && g.userId == decoded.claims.id
    ensures Truthy(tempToken) && Truthy(code) && decoded == Rejected(TokenExpiredError) ==>
      g == Refuse(Unauthorized, TempTokenExpired)
    ensures Truthy(tempToken) && Truthy(code) && decoded.Rejected? && decoded.errorName != TokenExpiredError ==>
      g == Forward(decoded.errorName)
    ensures (Truthy(tempToken) && Truthy(code) && decoded.Verified? && Purpose(decoded.claims) != Some(OtpVerificationPurpose))
      ==> g == Refuse(Unauthorized, InvalidTempToken)
  {
    if !Truthy(tempToken) || !Truthy(code) then Refuse(BadRequest, missing)
    else match decoded
      case Rejected(name) =>
        if name == TokenExpiredError then Refuse(Unauthorized, TempTokenExpired) else Forward(name)
      case Verified(claims) =>
        if Purpose(claims) != Some(OtpVerificationPurpose) then Refuse(Unauthorized, InvalidTempToken)
        else Proceed(ClaimedId(claims))
  }

  /** POST /otp/generate. Returns the error handed to `next`, if any. */
  method GenerateOtpSecretHandler(
    userRepository: UserRepository, user: Option<UserPayload>, secret: string,
    toDataUrl: GenerateOtpSecret.ProvisioningUri -> string, res: Response<GenerateOtpSecret.GenerateOtpSecretOutput>)
    returns (forwarded: Option<string>)
    requires userRepository.Valid()
    modifies userRepository, res
    ensures userRepository.Valid()
    ensures user.None? ==>
      && forwarded.None? && userRepository.users == old(userRepository.users)
      && res.statusCode == DefaultErrorStatus && res.body == Some(ErrorEnvelope(NotAuthenticated, DefaultErrorStatus))
    ensures user.Some? ==>
      var t := GenerateOtpSecret.Generate(State(old(userRepository.users), []), user.value.id, secret, toDataUrl);
      && userRepository.users == t.state.users
      && (t.result.Ok? ==> forwarded.None? && res.statusCode == DefaultSuccessStatus && res.body == Some(SuccessEnvelope(t.result.value)))
      && (t.result.Err? ==> forwarded == Some(t.result.message) && res.body == old(res.body) && res.statusCode == old(res.statusCode))
  {
    if user.None? {
      StatusThenJsonError(res, Unauthorized, NotAuthenticated);
      return None;
    }
    var result := GenerateOtpSecret.Execute(userRepository, user.value.id, secret, toDataUrl);
    if result.Err? {
      return Some(result.message);
    }
    res.JsonSuccess(result.value);
    forwarded := None;
  }

  /** POST /otp/verify-activation. */
  method VerifyAndActivateOtpHandler(
    userRepository: UserRepository, backupCodeRepository: InMemoryOtpBackupCodeRepository,
    user: Option<UserPayload>, otpToken: Option<string>, entropy: seq<seq<Byte>>, totpValid: (string, string) -> bool,
    res: Response<VerifyAndActivateOtp.ActivateOutput>)
    returns (forwarded: Option<string>)
    requires userRepository.Valid() && VerifyAndActivateOtp.IsEntropy(entropy)
    modifies userRepository, backupCodeRepository, res
    ensures userRepository.Valid()
    ensures user.None? || !Truthy(otpToken) ==>
      && forwarded.None?
      && userRepository.users == old(userRepository.users)
      && backupCodeRepository.codesBackup == old(backupCodeRepository.codesBackup)
      && res.statusCode == DefaultErrorStatus
      && res.body == Some(ErrorEnvelope(if user.None? then NotAuthenticated else OtpTokenRequired, DefaultErrorStatus))
    ensures user.Some? && Truthy(otpToken) ==>
      var t := VerifyAndActivateOtp.Activate(
        State(old(userRepository.users), old(backupCodeRepository.codesBackup)), user.value.id, otpToken.value, entropy, totpValid);
      && userRepository.users == t.state.users && backupCodeRepository.codesBackup == t.state.backupCodes
      && (t.result.Ok? ==> forwarded.None? && res.statusCode == DefaultSuccessStatus && res.body == Some(SuccessEnvelope(t.result.value)))
      && (t.result.Err? ==> forwarded == Some(t.result.message) && res.body == old(res.body) && res.statusCode == old(res.statusCode))
  {
    if user.None? {
      StatusThenJsonError(res, Unauthorized, NotAuthenticated);
      return None;
    }
    if !Truthy(otpToken) {
      StatusThenJsonError(res, BadRequest, OtpTokenRequired);
      return None;
    }
    var result := VerifyAndActivateOtp.Execute(userRepository, backupCodeRepository, user.value.id, otpToken.value, entropy, totpValid);
    if result.Err? {
      return Some(result.message);
    }
    res.JsonSuccess(result.value);
    forwarded := None;
  }

  /** POST /otp/verify-login. Reads only. */
  method VerifyOtpLoginHandler(
    userRepository: UserRepository, tempToken: Option<string>, otpToken: Option<string>, decoded: Decoded,
    totpValid: (string, string) -> bool, res: Response<SessionOutput>)
    returns (forwarded: Option<string>)
    modifies res
    ensures var g := TempTokenGate(tempToken, otpToken, decoded, LoginFieldsRequired);
      && (g.Refuse? ==> forwarded.None? && res.statusCode == DefaultErrorStatus && res.body == Some(ErrorEnvelope(g.message, DefaultErrorStatus)))
      && (g.Forward? ==> forwarded == Some(g.error) && res.body == old(res.body) && res.statusCode == old(res.statusCode))
      && (g.Proceed? ==>
            var r := VerifyOtpLogin.Verify(State(userRepository.users, []), g.userId, otpToken.value, totpValid);
            && (r.Ok? ==> forwarded.None? && res.statusCode == DefaultSuccessStatus && res.body == Some(SuccessEnvelope(r.value)))
            && (r.Err? ==> forwarded == Some(r.message) && res.body == old(res.body) && res.statusCode == old(res.statusCode)))
  {
    var gate := TempTokenGate(tempToken, otpToken, decoded, LoginFieldsRequired);
    match gate {
      case Refuse(status, message) =>
        StatusThenJsonError(res, status, message);
        forwarded := None;
      case Forward(error) =>
        forwarded := Some(error);
      case Proceed(userId) =>
        var result := VerifyOtpLogin.Verify(State(userRepository.users, []), userId, otpToken.value, totpValid);
        if result.Err? {
          return Some(result.message);
        }
        res.JsonSuccess(result.value);
        forwarded := None;
    }
  }

  /** POST /otp/verify-backup. */
  method VerifyBackupCodeHandler(
    userRepository: UserRepository, backupCodeRepository: InMemoryOtpBackupCodeRepository,
    tempToken: Option<string>, backupCode: Option<string>, decoded: Decoded,
    matches: (string, string) -> bool, res: Response<VerifyBackupCode.BackupLoginOutput>)
    returns (forwarded: Option<string>)
    modifies backupCodeRepository, res
    ensures var g := TempTokenGate(tempToken, backupCode, decoded, BackupFieldsRequired);
      && (!g.Proceed? ==> backupCodeRepository.codesBackup == old(backupCodeRepository.codesBackup))
      && (g.Refuse? ==> forwarded.None? && res.statusCode == DefaultErrorStatus && res.body == Some(ErrorEnvelope(g.message, DefaultErrorStatus)))
      && (g.Forward? ==> forwarded == Some(g.error) && res.body == old(res.body) && res.statusCode == old(res.statusCode))
      && (g.Proceed? ==>
            var t := VerifyBackupCode.Consume(
              State(userRepository.users, old(backupCodeRepository.codesBackup)), g.userId, backupCode.value, matches);
            && backupCodeRepository.codesBackup == t.state.backupCodes
            && (t.result.Ok? ==> forwarded.None? && res.statusCode == DefaultSuccessStatus && res.body == Some(SuccessEnvelope(t.result.value)))
            && (t.result.Err? ==> forwarded == Some(t.result.message) && res.body == old(res.body) && res.statusCode == old(res.statusCode)))
  {
    var gate := TempTokenGate(tempToken, backupCode, decoded, BackupFieldsRequired);
    match gate {
      case Refuse(status, message) =>
        StatusThenJsonError(res, status, message);
        forwarded := None;
      case Forward(error) =>
        forwarded := Some(error);
      case Proceed(userId) =>
        var result := VerifyBackupCode.Execute(userRepository, backupCodeRepository, userId, backupCode.value, matches);
        if result.Err? {
          return Some(result.message);
        }
        res.JsonSuccess(result.value);
        forwarded := None;
    }
  }

  /** POST /otp/disable. */
  method DisableOtpHandler(
    userRepository: UserRepository, backupCodeRepository: InMemoryOtpBackupCodeRepository,
    user: Option<UserPayload>, res: Response<DisableOtp.DisableOutput>)
    returns (forwarded: Option<string>)
    requires userRepository.Valid()
    modifies userRepository, backupCodeRepository, res
    ensures userRepository.Valid()
    ensures user.None? ==>
      && forwarded.None?
      && userRepository.users == old(userRepository.users)
      && backupCodeRepository.codesBackup == old(backupCodeRepository.codesBackup)
      && res.statusCode == DefaultErrorStatus && res.body == Some(ErrorEnvelope(NotAuthenticated, DefaultErrorStatus))
    ensures user.Some? ==>
      var t := DisableOtp.Disable(State(old(userRepository.users), old(backupCodeRepository.codesBackup)), user.value.id);
      && userRepository.users == t.state.users && backupCodeRepository.codesBackup == t.state.backupCodes
      && (t.result.Ok? ==> forwarded.None? && res.statusCode == DefaultSuccessStatus && res.body == Some(SuccessEnvelope(t.result.value)))
      && (t.result.Err? ==> forwarded == Some(t.result.message) && res.body == old(res.body) && res.statusCode == old(res.statusCode))
  {
    if user.None? {
      StatusThenJsonError(res, Unauthorized, NotAuthenticated);
      return None;
    }
    var result := DisableOtp.Execute(userRepository, backupCodeRepository, user.value.id);
    if result.Err? {
      return Some(result.message);
    }
    res.JsonSuccess(result.value);
    forwarded := None;
  }
}
