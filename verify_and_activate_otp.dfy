/** Activating two-factor login: the first authenticator code is checked
    against the stored secret, the flag is set, and the user's backup-code set
    is replaced by ten new codes. */
module VerifyAndActivateOtp {
  import opened Common
  import opened Seqs
  import opened Hex
  import opened Users
  import opened OtpBackupCode
  import opened OtpBackupCodeRepository
  import opened TwoFactorStore

  const SecretNotGenerated := "OTP secret not generated. Please generate a secret first."

  /** The loop makes ten codes (the comment above it says eight). */
  const BackupCodeCount := 10

  /** The bytes of one `randomBytes(4)` call. */
  const BytesPerCode := 4

  /** The output of `randomBytes` for the ten calls, in order. */
  predicate IsEntropy(entropy: seq<seq<Byte>>)
  {
    |entropy| == BackupCodeCount && forall i :: 0 <= i < |entropy| ==> |entropy[i]| == BytesPerCode
  }

  /** The codes the loop builds from the random bytes it is given. */
  function BackupCodesFrom(entropy: seq<seq<Byte>>): (codes: seq<string>)
    requires IsEntropy(entropy)
    ensures |codes| == BackupCodeCount
    ensures forall i :: 0 <= i < |codes| ==> |codes[i]| == 2 * BytesPerCode && Spells(codes[i], entropy[i])
  {
    seq(BackupCodeCount, i requires 0 <= i < BackupCodeCount => BackupCodeText(entropy[i]))
  }

  /** The generation loop: ten times, four random bytes as upper-case hex,
      pushed in order. */
  method GenerateBackupCodes(entropy: seq<seq<Byte>>) returns (backupCodes: seq<string>)
    requires IsEntropy(entropy)
    ensures |backupCodes| == BackupCodeCount
    ensures forall i :: 0 <= i < BackupCodeCount ==>
      && |backupCodes[i]| == 8
      && (forall k :: 0 <= k < 8 ==> IsUpperHex(backupCodes[i][k]))
      && HexDecode(backupCodes[i]) == entropy[i]
    ensures backupCodes == BackupCodesFrom(entropy)
  {
    backupCodes := [];
    for i := 0 to BackupCodeCount
      invariant |backupCodes| == i
      invariant forall j :: 0 <= j < i ==> backupCodes[j] == BackupCodeText(entropy[j])
    {
      var code := BackupCodeText(entropy[i]);
      backupCodes := backupCodes + [code];
    }
    forall i | 0 <= i < BackupCodeCount
      ensures HexDecode(backupCodes[i]) == entropy[i]
    {
      DecodeBackupCodeText(entropy[i]);
    }
  }

  datatype ActivateOutput = ActivateOutput(success: bool, backupCodes: seq<string>)

  /** The record saved for the new set: id 0 (assigned by the database), the
      codes, and both counters at zero. */
  function FreshBackupSet(userId: string, codes: seq<string>): OtpBackupCode
  {
    OtpBackupCode(0, userId, Json(codes), 0, 0)
  }

  /** The use case on the state; `totpValid(secret, token)` stands for
      `otplib.verify` at the current time. */
  function Activate(s: State, userId: string, otpToken: string, entropy: seq<seq<Byte>>, totpValid: (string, string) -> bool): (t: Step<ActivateOutput>)
    requires IsEntropy(entropy)
    ensures t.result.Ok? <==>
      userId in s.users && HasSecret(s.users[userId]) && totpValid(s.users[userId].otpSecret.value, otpToken)
    ensures t.result.Err? ==> t.state == s
    ensures userId !in s.users ==> t.result == Err(UserNotFound)
    ensures userId in s.users && !HasSecret(s.users[userId]) ==> t.result == Err(SecretNotGenerated)
    ensures userId in s.users && HasSecret(s.users[userId]) && !totpValid(s.users[userId].otpSecret.value, otpToken) ==>
      t.result == Err(InvalidOtpCode)
    ensures t.result.Ok? ==>
      && t.result.value.success
      && t.result.value.backupCodes == BackupCodesFrom(entropy)
      && t.state.users == WithOtpFields(s.users, userId, s.users[userId].otpSecret, 1)
      && t.state.backupCodes == WithoutUser(s.backupCodes, userId) + [FreshBackupSet(userId, t.result.value.backupCodes)]
  {
    if userId !in s.users then Step(Err(UserNotFound), s)
    else
      var user := s.users[userId];
      if !HasSecret(user) then Step(Err(SecretNotGenerated), s)
      else if !totpValid(user.otpSecret.value, otpToken) then Step(Err(InvalidOtpCode), s)
      else
        var users := WithOtpFields(s.users, userId, user.otpSecret, 1);
        var codes := BackupCodesFrom(entropy);
        var records := WithoutUser(s.backupCodes, userId) + [FreshBackupSet(userId, codes)];
        Step(Ok(ActivateOutput(true, codes)), State(users, records))
  }

  /** `execute`: the writes happen in source order (flag, delete, save) and
      only after every check has passed. */
  method Execute(
    userRepository: UserRepository, backupCodeRepository: InMemoryOtpBackupCodeRepository,
    userId: string, otpToken: string, entropy: seq<seq<Byte>>, totpValid: (string, string) -> bool)
    returns (r: Result<ActivateOutput>)
    requires userRepository.Valid() && IsEntropy(entropy)
    modifies userRepository, backupCodeRepository
    ensures userRepository.Valid()
    ensures var t := Activate(State(old(userRepository.users), old(backupCodeRepository.codesBackup)), userId, otpToken, entropy, totpValid);
      r == t.result && userRepository.users == t.state.users && backupCodeRepository.codesBackup == t.state.backupCodes
  {
    var user := userRepository.FindById(userId);
    if user.None? {
      return Err(UserNotFound);
    }
    if !Truthy(user.value.otpSecret) {
      return Err(SecretNotGenerated);
    }
    var isValid := totpValid(user.value.otpSecret.value, otpToken);
    if !isValid {
      return Err(InvalidOtpCode);
    }
    var updated := userRepository.UpdateOtpFields(userId, user.value.otpSecret, 1);
    var backupCodes := GenerateBackupCodes(entropy);
    backupCodeRepository.DeleteByUserId(userId);
    var backupCodeEntity := FreshBackupSet(userId, backupCodes);
    var validation := ValidateOrThrow(backupCodeEntity);
    assert validation.None?;
    var saved := backupCodeRepository.Save(backupCodeEntity);
    r := Ok(ActivateOutput(true, backupCodes));
  }

  /** After activation the user is enabled with the same secret, has exactly
      one backup set, that set holds the returned codes with zeroed counters,
      and every other user's lookup is unchanged. */
  lemma ActivationReplacesBackupSet(s: State, userId: string, otpToken: string, entropy: seq<seq<Byte>>, totpValid: (string, string) -> bool, other: string)
    requires IsEntropy(entropy)
    requires Activate(s, userId, otpToken, entropy, totpValid).result.Ok?
    ensures var t := Activate(s, userId, otpToken, entropy, totpValid);
      && OtpEnabled(t.state, userId)
      && t.state.users[userId].otpSecret == s.users[userId].otpSecret
      && CountKey(t.state.backupCodes, UserIdOf, userId) == 1
      && BackupSetOf(t.state, userId) == Some(OtpBackupCode(0, userId, Json(t.result.value.backupCodes), 0, 0))
      && (other != userId ==> BackupSetOf(t.state, other) == BackupSetOf(s, other))
  {
    var t := Activate(s, userId, otpToken, entropy, totpValid);
    var newSet := FreshBackupSet(userId, t.result.value.backupCodes);
    DeleteThenSaveLeavesOne(s.backupCodes, newSet);
    if other != userId {
      FindOtherAfterAppend(WithoutUser(s.backupCodes, userId), UserIdOf, newSet, other);
      FindOtherAfterRemoveAll(s.backupCodes, UserIdOf, userId, other);
    }
  }

  /** Each returned code is eight upper-case hex digits that decode to its own
      four random bytes, so distinct random draws give distinct codes. */
  lemma BackupCodesAreHex(entropy: seq<seq<Byte>>, i: int, j: int)
    requires IsEntropy(entropy) && 0 <= i < BackupCodeCount && 0 <= j < BackupCodeCount
    ensures var codes := BackupCodesFrom(entropy);
      |codes[i]| == 8 && (forall k :: 0 <= k < |codes[i]| ==> IsUpperHex(codes[i][k]))
      && (codes[i] == codes[j] <==> entropy[i] == entropy[j])
  {
    var codes := BackupCodesFrom(entropy);
    assert codes[i] == BackupCodeText(entropy[i]) && codes[j] == BackupCodeText(entropy[j]);
    if codes[i] == codes[j] {
      BackupCodeTextInjective(entropy[i], entropy[j]);
    }
  }
}
