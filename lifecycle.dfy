/** Properties of the two-factor lifecycle that span several use cases:
    generate, activate, log in with a code or a backup code, disable. */
module Lifecycle {
  import opened Common
  import opened Seqs
  import opened Text
  import opened Hex
  import opened Users
  import opened OtpBackupCode
  import opened OtpBackupCodeRepository
  import opened TwoFactorStore
  import opened GenerateOtpSecret
  import opened VerifyAndActivateOtp
  import opened VerifyOtpLogin
  import opened VerifyBackupCode
  import opened DisableOtp

  /** Generating and then activating with a code the authenticator accepts
      enables the user, after which the same code passes the login check. */
  lemma GenerateActivateLogin(
    s: State, userId: string, secret: string, toDataUrl: ProvisioningUri -> string,
    otpToken: string, entropy: seq<seq<Byte>>, totpValid: (string, string) -> bool)
    requires userId in s.users && secret != "" && totpValid(secret, otpToken) && IsEntropy(entropy)
    ensures var generated := Generate(s, userId, secret, toDataUrl);
      var activated := Activate(generated.state, userId, otpToken, entropy, totpValid);
      && generated.result.Ok? && activated.result.Ok?
      && OtpEnabled(activated.state, userId)
      && VerifyOtpLogin.Verify(activated.state, userId, otpToken, totpValid).Ok?
  {
    var generated := Generate(s, userId, secret, toDataUrl);
    assert generated.state.users[userId].otpSecret == Some(secret);
    var activated := Activate(generated.state, userId, otpToken, entropy, totpValid);
    assert activated.state.users[userId].otpSecret == Some(secret);
  }

  /** Generating a new secret for a user who is already enabled replaces the
      active secret and keeps the user enabled and the backup set as it was. */
  lemma RegenerateWhileEnabled(s: State, userId: string, secret: string, toDataUrl: ProvisioningUri -> string)
    requires OtpEnabled(s, userId)
    ensures var t := Generate(s, userId, secret, toDataUrl);
      && OtpEnabled(t.state, userId)
      && t.state.users[userId].otpSecret == Some(secret)
      && BackupSetOf(t.state, userId) == BackupSetOf(s, userId)
  {
    var t := Generate(s, userId, secret, toDataUrl);
    assert t.state.users[userId].otpEnable == s.users[userId].otpEnable;
  }

  /** After a disable neither login path accepts anything, and generating a
      secret again does not re-enable the user: only activation does. */
  lemma DisableThenLogin(
    s: State, userId: string, otpToken: string, backupCode: string, secret: string,
    toDataUrl: ProvisioningUri -> string, totpValid: (string, string) -> bool, matches: (string, string) -> bool)
    requires OtpEnabled(s, userId)
    ensures var off := Disable(s, userId).state;
      && VerifyOtpLogin.Verify(off, userId, otpToken, totpValid) == Err(OtpNotEnabled)
      && Consume(off, userId, backupCode, matches) == Step(Err(OtpNotEnabled), off)
      && !OtpEnabled(Generate(off, userId, secret, toDataUrl).state, userId)
      && VerifyOtpLogin.Verify(Generate(off, userId, secret, toDataUrl).state, userId, otpToken, totpValid) == Err(OtpNotEnabled)
  {
    var off := Disable(s, userId).state;
    assert off.users[userId].otpEnable == 0;
    var regenerated := Generate(off, userId, secret, toDataUrl);
    assert regenerated.state.users[userId].otpEnable == 0;
  }

  /** Re-activation is not refused: it succeeds again and the user still has
      exactly one backup set, the new one. */
  lemma ReactivationReplacesSet(
    s: State, userId: string, otpToken: string, entropy: seq<seq<Byte>>, entropy2: seq<seq<Byte>>,
    totpValid: (string, string) -> bool)
    requires IsEntropy(entropy) && IsEntropy(entropy2)
    requires Activate(s, userId, otpToken, entropy, totpValid).result.Ok?
    ensures var first := Activate(s, userId, otpToken, entropy, totpValid);
      var second := Activate(first.state, userId, otpToken, entropy2, totpValid);
      && second.result.Ok?
      && CountKey(second.state.backupCodes, UserIdOf, userId) == 1
      && BackupSetOf(second.state, userId) == Some(FreshBackupSet(userId, BackupCodesFrom(entropy2)))
  {
    var first := Activate(s, userId, otpToken, entropy, totpValid);
    ActivationReplacesBackupSet(s, userId, otpToken, entropy, totpValid, userId);
    assert first.state.users[userId].otpSecret == s.users[userId].otpSecret;
    var second := Activate(first.state, userId, otpToken, entropy2, totpValid);
    ActivationReplacesBackupSet(first.state, userId, otpToken, entropy2, totpValid, userId);
  }

  /** How many stored entries a submission matches. */
  function MatchCount(hashedCodes: seq<string>, backupCode: string, matches: (string, string) -> bool): (n: nat)
    ensures n <= |hashedCodes|
    ensures n == 0 <==> MatchedIndex(hashedCodes, backupCode, matches) == -1
  {
    CountKey(hashedCodes, MatchesSubmitted(ToUpper(backupCode), matches), true)
  }

  /** Backup codes are single-use: a successful login with a code removes one
      entry the code matches, so the same code matches one entry fewer; a
      code that matched one entry is refused when submitted again. */
  lemma BackupCodeIsSingleUse(s: State, userId: string, backupCode: string, matches: (string, string) -> bool)
    requires OtpEnabled(s, userId) && Hits(s, userId, backupCode, matches)
    ensures var t := Consume(s, userId, backupCode, matches);
      var before := BackupSetOf(s, userId).value.codes.list;
      && t.result.Ok?
      && BackupSetOf(t.state, userId).Some? && BackupSetOf(t.state, userId).value.codes.Json?
      && MatchCount(BackupSetOf(t.state, userId).value.codes.list, backupCode, matches) == MatchCount(before, backupCode, matches) - 1
      && (MatchCount(before, backupCode, matches) == 1 ==>
            Consume(t.state, userId, backupCode, matches).result.Err?)
  {
    var t := Consume(s, userId, backupCode, matches);
    var before := BackupSetOf(s, userId).value.codes.list;
    var i := MatchedIndex(before, backupCode, matches);
    HitConsumesCode(s, userId, backupCode, matches);
    CountKeyRemoveAt(before, i, MatchesSubmitted(ToUpper(backupCode), matches), true);
  }

  /** There is no lock check before the comparison: a matching code is
      accepted however many misses preceded it, and it resets the counter. */
  lemma HitAfterLockout(s: State, userId: string, backupCode: string, matches: (string, string) -> bool)
    requires OtpEnabled(s, userId) && Hits(s, userId, backupCode, matches)
    requires BackupSetOf(s, userId).value.nbConsecutiveTests >= LockoutThreshold
    ensures var t := Consume(s, userId, backupCode, matches);
      t.result.Ok? && BackupSetOf(t.state, userId).Some? && BackupSetOf(t.state, userId).value.nbConsecutiveTests == 0
  {
    HitConsumesCode(s, userId, backupCode, matches);
  }

  /** The store after submitting each backup code in turn. */
  function AttemptAll(s: State, userId: string, submissions: seq<string>, matches: (string, string) -> bool): State
    decreases |submissions|
  {
    if submissions == [] then s
    else
      var last := |submissions| - 1;
      Consume(AttemptAll(s, userId, submissions[..last], matches), userId, submissions[last], matches).state
  }

  /** None of `submissions` matches an entry of `hashedCodes`. */
  predicate MissesAll(hashedCodes: seq<string>, submissions: seq<string>, matches: (string, string) -> bool)
  {
    forall k :: 0 <= k < |submissions| ==> MatchedIndex(hashedCodes, submissions[k], matches) == -1
  }

  /** The backup set the backup-code login path works on: the user's set
      when the user is enabled, none otherwise. */
  function ActiveSet(s: State, userId: string): (r: Option<OtpBackupCode>)
    ensures r.Some? <==> OtpEnabled(s, userId) && BackupSetOf(s, userId).Some?
  {
    if OtpEnabled(s, userId) then BackupSetOf(s, userId) else None
  }

  /** `record` with `n` more failed attempts counted. */
  function Bumped(record: OtpBackupCode, n: nat): OtpBackupCode
  {
    record.(nbConsecutiveTests := record.nbConsecutiveTests + n)
  }

  /** `submissions` all miss the user's active set `record`. */
  predicate MissRun(s: State, userId: string, submissions: seq<string>, matches: (string, string) -> bool, record: OtpBackupCode)
  {
    ActiveSet(s, userId) == Some(record) && record.codes.Json? && MissesAll(record.codes.list, submissions, matches)
  }

  /** A run of misses leaves the codes as they were and adds one to the
      failure counter per miss. */
  lemma {:induction false} MissesAccumulate(
    s: State, userId: string, submissions: seq<string>, matches: (string, string) -> bool, record: OtpBackupCode)
    requires MissRun(s, userId, submissions, matches, record)
    ensures ActiveSet(AttemptAll(s, userId, submissions, matches), userId) == Some(Bumped(record, |submissions|))
    decreases |submissions|, 1
  {
    if submissions == [] {
      NoAttempts(s, userId, submissions, matches, record);
    } else {
      OneMoreMiss(s, userId, submissions, matches, record);
    }
  }

  /** No submission changes nothing. */
  lemma NoAttempts(s: State, userId: string, submissions: seq<string>, matches: (string, string) -> bool, record: OtpBackupCode)
    requires ActiveSet(s, userId) == Some(record) && submissions == []
    ensures ActiveSet(AttemptAll(s, userId, submissions, matches), userId) == Some(Bumped(record, |submissions|))
  {
    assert Bumped(record, |submissions|) == record;
  }

  /** A run of misses is a shorter run of misses followed by one more miss. */
  lemma MissesAllSplit(hashedCodes: seq<string>, submissions: seq<string>, matches: (string, string) -> bool)
    requires MissesAll(hashedCodes, submissions, matches) && submissions != []
    ensures MissesAll(hashedCodes, submissions[..|submissions| - 1], matches)
    ensures MatchedIndex(hashedCodes, submissions[|submissions| - 1], matches) == -1
  {
    var earlier := submissions[..|submissions| - 1];
    forall k | 0 <= k < |earlier| ensures MatchedIndex(hashedCodes, earlier[k], matches) == -1 {
      assert earlier[k] == submissions[k];
    }
  }

  /** A run of misses without its last submission is still a run of misses. */
  lemma MissRunPrefix(s: State, userId: string, submissions: seq<string>, matches: (string, string) -> bool, record: OtpBackupCode)
    requires MissRun(s, userId, submissions, matches, record) && submissions != []
    ensures MissRun(s, userId, submissions[..|submissions| - 1], matches, record)
  {
    MissesAllSplit(record.codes.list, submissions, matches);
  }

  /** A non-empty run of misses: the run without its last submission, then
      one more miss. */
  lemma {:induction false} OneMoreMiss(
    s: State, userId: string, submissions: seq<string>, matches: (string, string) -> bool, record: OtpBackupCode)
    requires submissions != [] && MissRun(s, userId, submissions, matches, record)
    ensures ActiveSet(AttemptAll(s, userId, submissions, matches), userId) == Some(Bumped(record, |submissions|))
    decreases |submissions|, 0
  {
    MissRunPrefix(s, userId, submissions, matches, record);
    MissesAccumulate(s, userId, submissions[..|submissions| - 1], matches, record);
    LastMiss(s, userId, submissions, matches, record);
  }

  /** The last miss of a run adds one more to the counter the rest of the
      run left. */
  lemma LastMiss(
    s: State, userId: string, submissions: seq<string>, matches: (string, string) -> bool, record: OtpBackupCode)
    requires submissions != [] && MissRun(s, userId, submissions, matches, record)
    requires ActiveSet(AttemptAll(s, userId, submissions[..|submissions| - 1], matches), userId)
      == Some(Bumped(record, |submissions[..|submissions| - 1]|))
    ensures ActiveSet(AttemptAll(s, userId, submissions, matches), userId) == Some(Bumped(record, |submissions|))
  {
    MissesAllSplit(record.codes.list, submissions, matches);
    var t := AttemptAll(s, userId, submissions[..|submissions| - 1], matches);
    assert AttemptAll(s, userId, submissions, matches) == Consume(t, userId, submissions[|submissions| - 1], matches).state;
    MissOnState(t, userId, submissions[|submissions| - 1], matches, record, |submissions| - 1, |submissions|);
  }

  /** One more miss on a store whose record is `record` with `n` misses added
      adds one more. */
  lemma MissOnState(
    t: State, userId: string, backupCode: string, matches: (string, string) -> bool, record: OtpBackupCode, n: nat, m: nat)
    requires ActiveSet(t, userId) == Some(Bumped(record, n)) && record.codes.Json?
    requires MatchedIndex(record.codes.list, backupCode, matches) == -1 && m == n + 1
    ensures ActiveSet(Consume(t, userId, backupCode, matches).state, userId) == Some(Bumped(record, m))
  {
    var current := Bumped(record, n);
    assert !Hits(t, userId, backupCode, matches);
    MissRaisesCounter(t, userId, backupCode, matches);
    assert AfterMiss(current) == Bumped(record, m);
  }

  /** Starting from a fresh set (counter 0), the first four misses in a row
      report an invalid code and the fifth and later ones report the lock-out. */
  lemma FifthMissLocks(
    s: State, userId: string, submissions: seq<string>, next: string, matches: (string, string) -> bool, record: OtpBackupCode)
    requires ActiveSet(s, userId) == Some(record) && record.codes.Json? && record.nbConsecutiveTests == 0
    requires MissesAll(record.codes.list, submissions, matches) && MatchedIndex(record.codes.list, next, matches) == -1
    ensures Consume(AttemptAll(s, userId, submissions, matches), userId, next, matches).result
      == Err(if |submissions| + 1 >= LockoutThreshold then AccountLocked else InvalidBackupCode)
  {
    MissesAccumulate(s, userId, submissions, matches, record);
    var t := AttemptAll(s, userId, submissions, matches);
    assert !Hits(t, userId, next, matches);
    MissRaisesCounter(t, userId, next, matches);
  }

  /** Right after activation the user has a fresh set, so five wrong backup
      codes in a row end with the lock-out message. */
  lemma ActivateThenFiveMisses(
    s: State, userId: string, otpToken: string, entropy: seq<seq<Byte>>, totpValid: (string, string) -> bool,
    submissions: seq<string>, next: string, matches: (string, string) -> bool)
    requires IsEntropy(entropy) && Activate(s, userId, otpToken, entropy, totpValid).result.Ok?
    requires |submissions| == 4
    requires MissesAll(BackupCodesFrom(entropy), submissions, matches) && MatchedIndex(BackupCodesFrom(entropy), next, matches) == -1
    ensures var active := Activate(s, userId, otpToken, entropy, totpValid).state;
      Consume(AttemptAll(active, userId, submissions, matches), userId, next, matches).result == Err(AccountLocked)
  {
    var active := Activate(s, userId, otpToken, entropy, totpValid).state;
    ActivationReplacesBackupSet(s, userId, otpToken, entropy, totpValid, userId);
    FifthMissLocks(active, userId, submissions, next, matches, FreshBackupSet(userId, BackupCodesFrom(entropy)));
  }

  /** The backup path upper-cases what it is given, so the case of the
      submitted letters makes no difference. */
  lemma SubmissionCaseIgnored(s: State, userId: string, backupCode: string, matches: (string, string) -> bool)
    ensures Consume(s, userId, ToUpper(backupCode), matches) == Consume(s, userId, backupCode, matches)
  {
    ToUpperIdempotent(backupCode);
  }
}
