/** Turning two-factor login off: the secret and flag are cleared and the
    user's backup codes are deleted. */
module DisableOtp {
  import opened Common
  import opened Seqs
  import opened Users
  import opened OtpBackupCode
  import opened OtpBackupCodeRepository
  import opened TwoFactorStore

  const NotCurrentlyEnabled := "OTP is not currently enabled"

  datatype DisableOutput = DisableOutput(success: bool)

  function Disable(s: State, userId: string): (t: Step<DisableOutput>)
    ensures t.result.Ok? <==> OtpEnabled(s, userId)
    ensures userId !in s.users ==> t.result == Err(UserNotFound) && t.state == s
    ensures userId in s.users && !OtpEnabled(s, userId) ==> t.result == Err(NotCurrentlyEnabled) && t.state == s
    ensures t.result.Ok? ==>
      && t.result.value.success
      && t.state.users == WithOtpFields(s.users, userId, None, 0)
      && t.state.backupCodes == WithoutUser(s.backupCodes, userId)
      && BackupSetOf(t.state, userId).None?
      && !OtpEnabled(t.state, userId)
  {
    if userId !in s.users then Step(Err(UserNotFound), s)
    else if s.users[userId].otpEnable != 1 then Step(Err(NotCurrentlyEnabled), s)
    else
      var users := WithOtpFields(s.users, userId, None, 0);
      Step(Ok(DisableOutput(true)), State(users, WithoutUser(s.backupCodes, userId)))
  }

  method Execute(userRepository: UserRepository, backupCodeRepository: InMemoryOtpBackupCodeRepository, userId: string)
    returns (r: Result<DisableOutput>)
    requires userRepository.Valid()
    modifies userRepository, backupCodeRepository
    ensures userRepository.Valid()
    ensures var t := Disable(State(old(userRepository.users), old(backupCodeRepository.codesBackup)), userId);
      r == t.result && userRepository.users == t.state.users && backupCodeRepository.codesBackup == t.state.backupCodes
  {
    var user := userRepository.FindById(userId);
    if user.None? {
      return Err(UserNotFound);
    }
    if user.value.otpEnable != 1 {
      return Err(NotCurrentlyEnabled);
    }
    var updated := userRepository.UpdateOtpFields(userId, None, 0);
    backupCodeRepository.DeleteByUserId(userId);
    r := Ok(DisableOutput(true));
  }

  /** Disabling leaves no other user's record or backup set changed. */
  lemma DisableTouchesOnlyItsUser(s: State, userId: string, other: string)
    requires Disable(s, userId).result.Ok? && other != userId
    ensures var t := Disable(s, userId);
      && (other in s.users ==> other in t.state.users && t.state.users[other] == s.users[other])
      && BackupSetOf(t.state, other) == BackupSetOf(s, other)
  {
    FindOtherAfterRemoveAll(s.backupCodes, UserIdOf, userId, other);
  }

  /** A second disable right after a successful one fails and writes nothing. */
  lemma DisableTwice(s: State, userId: string)
    requires Disable(s, userId).result.Ok?
    ensures var t := Disable(s, userId);
      Disable(t.state, userId) == Step(Err(NotCurrentlyEnabled), t.state)
  {
  }
}
