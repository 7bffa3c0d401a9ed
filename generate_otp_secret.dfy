/** Generating a TOTP secret: a fresh secret is stored on the user without
    touching the enable flag, and returned with a provisioning QR code. */
module GenerateOtpSecret {
  import opened Common
  import opened Users
  import opened TwoFactorStore

  /** The `otpauth://` URI `generateURI` builds: issuer, account label and
      secret. */
  datatype ProvisioningUri = ProvisioningUri(issuer: string, account: string, secret: string)

  const Issuer := "EventHub"

  datatype GenerateOtpSecretOutput = GenerateOtpSecretOutput(qrCodeDataUrl: string, manualKey: string)

  /** The use case on the state. `secret` is the value `generateSecret()`
      returns; `toDataUrl` stands for `QRCode.toDataURL`. */
  function Generate(s: State, userId: string, secret: string, toDataUrl: ProvisioningUri -> string): (t: Step<GenerateOtpSecretOutput>)
    ensures t.result.Ok? <==> userId in s.users
    ensures t.result.Err? ==> t.result.message == UserNotFound && t.state == s
    ensures t.state.backupCodes == s.backupCodes
    ensures t.state.users.Keys == s.users.Keys
    ensures forall other :: other in s.users && other != userId ==> t.state.users[other] == s.users[other]
    ensures t.result.Ok? ==>
      && t.state.users[userId].otpSecret == Some(secret)
      && t.state.users[userId].otpEnable == s.users[userId].otpEnable
      && t.state.users[userId] == s.users[userId].(otpSecret := Some(secret))
      && t.result.value.manualKey == secret
      && t.result.value.qrCodeDataUrl == toDataUrl(ProvisioningUri(Issuer, s.users[userId].email, secret))
  {
    if userId !in s.users then Step(Err(UserNotFound), s)
    else
      var user := s.users[userId];
      var users := WithOtpFields(s.users, userId, Some(secret), user.otpEnable);
      var uri := ProvisioningUri(Issuer, user.email, secret);
      Step(Ok(GenerateOtpSecretOutput(toDataUrl(uri), secret)), s.(users := users))
  }

  /** `execute` against the user repository. The backup-code store is not a
      dependency of this use case. */
  method Execute(userRepository: UserRepository, userId: string, secret: string, toDataUrl: ProvisioningUri -> string)
    returns (r: Result<GenerateOtpSecretOutput>)
    requires userRepository.Valid()
    modifies userRepository
    ensures userRepository.Valid()
    ensures var t := Generate(State(old(userRepository.users), []), userId, secret, toDataUrl);
      r == t.result && userRepository.users == t.state.users
  {
    var user := userRepository.FindById(userId);
    if user.None? {
      return Err(UserNotFound);
    }
    var updated := userRepository.UpdateOtpFields(userId, Some(secret), user.value.otpEnable);
    var otpAuthUrl := ProvisioningUri(Issuer, user.value.email, secret);
    var qrCodeDataUrl := toDataUrl(otpAuthUrl);
    r := Ok(GenerateOtpSecretOutput(qrCodeDataUrl, secret));
  }
}
