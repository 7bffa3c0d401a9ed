/** The second login step with a one-time backup code: the submitted code is
    upper-cased and compared with each stored code in order; the first match
    is removed from the set, a miss raises the failure counter. */
module VerifyBackupCode {
  import opened Common
  import opened Seqs
  import opened Text
  import opened Users
  import opened OtpBackupCode
  import opened OtpBackupCodeRepository
  import opened TwoFactorStore

  const NoBackupCodes := "No backup codes found"
  const AccountLocked := "Too many failed attempts. Account locked for backup codes."
  const InvalidBackupCode := "Invalid backup code"
  /** The `SyntaxError` `JSON.parse('')` throws. */
  const UnexpectedEndOfJson := "Unexpected end of JSON input"

  /** Failed attempts from which a miss reports the lock-out message. */
  const LockoutThreshold := 5

  datatype BackupLoginOutput = BackupLoginOutput(user: UserView, token: Tokens.Token, remainingCodes: int)

  /** `bcrypt.compare(submitted, stored)` as a test on one stored entry. */
  function MatchesSubmitted(submitted: string, matches: (string, string) -> bool): string -> bool
  {
    stored => matches(submitted, stored)
  }

  /** The index the scan stops at: the first stored entry the upper-cased
      submission matches, or -1. */
  function MatchedIndex(hashedCodes: seq<string>, backupCode: string, matches: (string, string) -> bool): (i: int)
    ensures -1 <= i < |hashedCodes|
    ensures i >= 0 ==> matches(ToUpper(backupCode), hashedCodes[i])
    ensures i >= 0 ==> forall j :: 0 <= j < i ==> !matches(ToUpper(backupCode), hashedCodes[j])
    ensures i == -1 <==> forall j :: 0 <= j < |hashedCodes| ==> !matches(ToUpper(backupCode), hashedCodes[j])
  {
    IndexOf(hashedCodes, MatchesSubmitted(ToUpper(backupCode), matches), true)
  }

  /** The record after a miss: only the failure counter moves, by one. */
  function AfterMiss(record: OtpBackupCode): (r: OtpBackupCode)
    ensures r.userId == record.userId && r.codes == record.codes && r.nbCodeUsed == record.nbCodeUsed
    ensures r.nbConsecutiveTests == record.nbConsecutiveTests + 1
  {
    record.(nbConsecutiveTests := record.nbConsecutiveTests + 1)
  }

  /** The store after a miss is persisted: the user's record replaced by
      `AfterMiss(record)`, everything else as it was. */
  function Missed(s: State, record: OtpBackupCode): (t: State)
    requires BackupSetOf(s, record.userId) == Some(record)
    ensures t.users == s.users && |t.backupCodes| == |s.backupCodes|
    ensures BackupSetOf(t, record.userId) == Some(AfterMiss(record))
  {
    var missed := AfterMiss(record);
    FindAfterUpdate(s.backupCodes, missed, record.userId);
    s.(backupCodes := WithUpdate(s.backupCodes, missed))
  }

  /** The record after using the entry at `i`: that entry is gone, the used
      count moves by one and the failure counter is reset. */
  function AfterHit(record: OtpBackupCode, i: nat): (r: OtpBackupCode)
    requires record.codes.Json? && i < |record.codes.list|
    ensures r.userId == record.userId && r.codes.Json?
    ensures r.codes.list == RemoveAt(record.codes.list, i)
    ensures r.nbCodeUsed == record.nbCodeUsed + 1 && r.nbConsecutiveTests == 0
  {
    record.(codes := Json(RemoveAt(record.codes.list, i)), nbCodeUsed := record.nbCodeUsed + 1, nbConsecutiveTests := 0)
  }

  /** The store after a hit is persisted: the user's record replaced by
      `AfterHit(record, i)`, everything else as it was. */
  function Used(s: State, record: OtpBackupCode, i: nat): (t: State)
    requires BackupSetOf(s, record.userId) == Some(record)
    requires record.codes.Json? && i < |record.codes.list|
    ensures t.users == s.users && |t.backupCodes| == |s.backupCodes|
    ensures BackupSetOf(t, record.userId) == Some(AfterHit(record, i))
  {
    var used := AfterHit(record, i);
    FindAfterUpdate(s.backupCodes, used, record.userId);
    s.(backupCodes := WithUpdate(s.backupCodes, used))
  }

  /** Whether the submission matches some entry of the user's backup set. */
  predicate Hits(s: State, userId: string, backupCode: string, matches: (string, string) -> bool)
  {
    && BackupSetOf(s, userId).Some?
    && BackupSetOf(s, userId).value.codes.Json?
    && MatchedIndex(BackupSetOf(s, userId).value.codes.list, backupCode, matches) >= 0
  }

  /** The use case on the state; `matches` stands for `bcrypt.compare`. */
  function Consume(s: State, userId: string, backupCode: string, matches: (string, string) -> bool): (t: Step<BackupLoginOutput>)
    ensures t.state.users == s.users
    ensures |t.state.backupCodes| == |s.backupCodes|
    ensures t.result.Ok? <==> OtpEnabled(s, userId) && Hits(s, userId, backupCode, matches)
    ensures userId !in s.users ==> t == Step(Err(UserNotFound), s)
    ensures userId in s.users && !OtpEnabled(s, userId) ==> t == Step(Err(OtpNotEnabled), s)
    ensures OtpEnabled(s, userId) && BackupSetOf(s, userId).None? ==> t == Step(Err(NoBackupCodes), s)
    ensures OtpEnabled(s, userId) && BackupSetOf(s, userId).Some? && BackupSetOf(s, userId).value.codes.Blank? ==>
      t == Step(Err(UnexpectedEndOfJson), s)
    ensures t.result.Ok? ==> t.result.value.user == ViewOf(s.users[userId])
    ensures t.result.Ok? ==> t.result.value.token == Tokens.GenerateSignature(PayloadOf(s.users[userId]))
    ensures forall other :: other != userId ==> BackupSetOf(t.state, other) == BackupSetOf(s, other)
  {
    if userId !in s.users then Step(Err(UserNotFound), s)
    else
      var user := s.users[userId];
      if user.otpEnable != 1 then Step(Err(OtpNotEnabled), s)
      else match BackupSetOf(s, userId)
        case None => Step(Err(NoBackupCodes), s)
        case Some(record) => ConsumeFrom(s, user, record, backupCode, matches)
  }

  /** The part of the use case after the user's backup set was found:
      parse the codes, scan them, and persist the hit or the miss. */
  function ConsumeFrom(s: State, user: User, record: OtpBackupCode, backupCode: string, matches: (string, string) -> bool)
    : (t: Step<BackupLoginOutput>)
    ensures t.state.users == s.users
    ensures |t.state.backupCodes| == |s.backupCodes|
    ensures t.result.Ok? <==> record.codes.Json? && MatchedIndex(record.codes.list, backupCode, matches) >= 0
    ensures record.codes.Blank? ==> t == Step(Err(UnexpectedEndOfJson), s)
    ensures t.result.Ok? ==> t.result.value.user == ViewOf(user)
    ensures t.result.Ok? ==> t.result.value.token == Tokens.GenerateSignature(PayloadOf(user))
    ensures forall other :: other != record.userId ==> FindRecord(t.state.backupCodes, other) == FindRecord(s.backupCodes, other)
  {
    if record.codes.Blank? then Step(Err(UnexpectedEndOfJson), s)
    else
      var hashedCodes := record.codes.list;
      var i := MatchedIndex(hashedCodes, backupCode, matches);
      if i == -1 then
        var message := if record.nbConsecutiveTests + 1 >= LockoutThreshold then AccountLocked else InvalidBackupCode;
        var missed := AfterMiss(record);
        UpdateLeavesOthers(s.backupCodes, missed);
        Step(Err(message), s.(backupCodes := WithUpdate(s.backupCodes, missed)))
      else
        var used := AfterHit(record, i);
        UpdateLeavesOthers(s.backupCodes, used);
        Step(Ok(BackupLoginOutput(ViewOf(user), Tokens.GenerateSignature(PayloadOf(user)), |hashedCodes| - 1)),
             s.(backupCodes := WithUpdate(s.backupCodes, used)))
  }

  lemma UpdateLeavesOthers(records: seq<OtpBackupCode>, record: OtpBackupCode)
    ensures forall other :: other != record.userId ==> FindRecord(WithUpdate(records, record), other) == FindRecord(records, other)
  {
    forall other | other != record.userId
      ensures FindRecord(WithUpdate(records, record), other) == FindRecord(records, other)
    {
      FindOtherAfterReplace(records, UserIdOf, record, other);
    }
  }

  /** A miss: the message is the lock-out one exactly when the raised counter
      reaches five, and the plain rejection otherwise; the store keeps
      everything but the user's record, whose failure counter rises by one
      and nothing else (`Missed`). */
  lemma MissRaisesCounter(s: State, userId: string, backupCode: string, matches: (string, string) -> bool)
    requires OtpEnabled(s, userId) && BackupSetOf(s, userId).Some? && BackupSetOf(s, userId).value.codes.Json?
    requires !Hits(s, userId, backupCode, matches)
    ensures var record := BackupSetOf(s, userId).value;
      var message := if record.nbConsecutiveTests + 1 >= LockoutThreshold then AccountLocked else InvalidBackupCode;
      Consume(s, userId, backupCode, matches) == Step(Err(message), Missed(s, record))
  {
    var record := BackupSetOf(s, userId).value;
    assert MatchedIndex(record.codes.list, backupCode, matches) == -1;
  }

  /** A hit: the session is opened for the user and the remaining count is
      one less than before; the store keeps everything but the user's
      record, from which exactly the first matching entry is removed, the
      others keeping their order, with the used count up by one and the
      failure counter reset whatever it was (`Used`, `AfterHit`). */
  lemma HitConsumesCode(s: State, userId: string, backupCode: string, matches: (string, string) -> bool)
    requires OtpEnabled(s, userId) && Hits(s, userId, backupCode, matches)
    ensures var record := BackupSetOf(s, userId).value;
      var i := MatchedIndex(record.codes.list, backupCode, matches);
      var user := s.users[userId];
      Consume(s, userId, backupCode, matches)
        == Step(Ok(BackupLoginOutput(ViewOf(user), Tokens.GenerateSignature(PayloadOf(user)), |record.codes.list| - 1)),
                Used(s, record, i))
  {
  }

  /** The scan of `execute`: compare the upper-cased submission with each
      stored entry in order and stop at the first that matches. */
  method ScanForMatch(hashedCodes: seq<string>, backupCode: string, matches: (string, string) -> bool)
    returns (matchedIndex: int)
    ensures matchedIndex == MatchedIndex(hashedCodes, backupCode, matches)
  {
    matchedIndex := -1;
    var i := 0;
    while i < |hashedCodes|
      invariant 0 <= i <= |hashedCodes|
      invariant forall j :: 0 <= j < i ==> !matches(ToUpper(backupCode), hashedCodes[j])
    {
      var isMatch := matches(ToUpper(backupCode), hashedCodes[i]);
      if isMatch {
        matchedIndex := i;
        return;
      }
      i := i + 1;
    }
  }

  /** `execute` against the two repositories. The scan is the source's loop:
      it stops at the first entry that matches. */
  method Execute(
    userRepository: UserRepository, backupCodeRepository: InMemoryOtpBackupCodeRepository,
    userId: string, backupCode: string, matches: (string, string) -> bool)
    returns (r: Result<BackupLoginOutput>)
    modifies backupCodeRepository
    ensures var t := Consume(State(userRepository.users, old(backupCodeRepository.codesBackup)), userId, backupCode, matches);
      r == t.result && backupCodeRepository.codesBackup == t.state.backupCodes
  {
    var user := userRepository.FindById(userId);
    if user.None? {
      return Err(UserNotFound);
    }
    if user.value.otpEnable != 1 {
      return Err(OtpNotEnabled);
    }
    var backupCodeEntity := backupCodeRepository.FindByUserId(userId);
    if backupCodeEntity.None? {
      return Err(NoBackupCodes);
    }
    r := ConsumeFromRecord(backupCodeRepository, userRepository.users, user.value, backupCodeEntity.value, backupCode, matches);
  }

  /** The rest of `execute` once the user's backup set is in hand. */
  method ConsumeFromRecord(
    backupCodeRepository: InMemoryOtpBackupCodeRepository, ghost users: map<string, User>,
    user: User, record: OtpBackupCode, backupCode: string, matches: (string, string) -> bool)
    returns (r: Result<BackupLoginOutput>)
    modifies backupCodeRepository
    ensures var t := ConsumeFrom(State(users, old(backupCodeRepository.codesBackup)), user, record, backupCode, matches);
      r == t.result && backupCodeRepository.codesBackup == t.state.backupCodes
  {
    ghost var s := State(users, backupCodeRepository.codesBackup);
    if record.codes.Blank? {
      return Err(UnexpectedEndOfJson);
    }
    var hashedCodes := record.codes.list;
    var matchedIndex := ScanForMatch(hashedCodes, backupCode, matches);

    if matchedIndex == -1 {
      ConsumeFromMiss(s, user, record, backupCode, matches);
      var missed := record.(nbConsecutiveTests := record.nbConsecutiveTests + 1);
      var persisted := backupCodeRepository.Update(missed);
      if missed.nbConsecutiveTests >= LockoutThreshold {
        return Err(AccountLocked);
      }
      return Err(InvalidBackupCode);
    }

    ConsumeFromHit(s, user, record, backupCode, matches, matchedIndex);
    hashedCodes := RemoveAt(hashedCodes, matchedIndex);
    var used := record.(codes := Json(hashedCodes), nbCodeUsed := record.nbCodeUsed + 1, nbConsecutiveTests := 0);
    var persisted := backupCodeRepository.Update(used);
    r := Ok(BackupLoginOutput(ViewOf(user), Tokens.GenerateSignature(PayloadOf(user)), |hashedCodes|));
  }

  /** `ConsumeFrom` when no entry matches: the miss is persisted and the
      message depends on the raised counter. */
  lemma ConsumeFromMiss(s: State, user: User, record: OtpBackupCode, backupCode: string, matches: (string, string) -> bool)
    requires record.codes.Json? && MatchedIndex(record.codes.list, backupCode, matches) == -1
    ensures ConsumeFrom(s, user, record, backupCode, matches) ==
      Step(Err(if record.nbConsecutiveTests + 1 >= LockoutThreshold then AccountLocked else InvalidBackupCode),
           s.(backupCodes := WithUpdate(s.backupCodes, AfterMiss(record))))
  {
  }

  /** `ConsumeFrom` when entry `i` is the first match: the hit is persisted
      and the reply counts the entries left. */
  lemma ConsumeFromHit(s: State, user: User, record: OtpBackupCode, backupCode: string, matches: (string, string) -> bool, i: int)
    requires record.codes.Json? && i == MatchedIndex(record.codes.list, backupCode, matches) && i >= 0
    ensures ConsumeFrom(s, user, record, backupCode, matches) ==
      Step(Ok(BackupLoginOutput(ViewOf(user), Tokens.GenerateSignature(PayloadOf(user)), |record.codes.list| - 1)),
           s.(backupCodes := WithUpdate(s.backupCodes, AfterHit(record, i))))
  {
  }
}
