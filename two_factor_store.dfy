/** The state the two-factor use cases read and write, as one value: the user
    records by id and the backup-code records in store order. Each use case is
    specified by a function from the state before to its outcome and the state
    after; the methods that run against the two repositories are proved to
    agree with it. */
module TwoFactorStore {
  import opened Common
  import opened Users
  import opened OtpBackupCode
  import opened OtpBackupCodeRepository
  import Tokens

  datatype State = State(users: map<string, User>, backupCodes: seq<OtpBackupCode>)

  /** What a use case returns (a value or the message it throws) and the
      state it leaves behind. */
  datatype Step<+T> = Step(result: Result<T>, state: State)

  const UserNotFound := "User not found"
  const InvalidOtpCode := "Invalid OTP code"
  const OtpNotEnabled := "OTP is not enabled for this user"

  /** The login response both OTP login paths build: the user without its
      secrets, and a full session token. */
  datatype SessionOutput = SessionOutput(user: UserView, token: Tokens.Token)

  function SessionFor(u: User): (r: SessionOutput)
    ensures r.user.id == u.id && r.user.username == u.username && r.user.email == u.email && r.user.createdAt == u.createdAt
    ensures r.token.Jwt? && r.token.claims == Tokens.SessionClaims(PayloadOf(u))
  {
    SessionOutput(ViewOf(u), Tokens.GenerateSignature(PayloadOf(u)))
  }

  /** The backup-code record `findByUserId` returns for a user. */
  function BackupSetOf(s: State, userId: string): Option<OtpBackupCode>
  {
    FindRecord(s.backupCodes, userId)
  }

  /** The OTP state of a user: what the login paths look at. */
  predicate OtpEnabled(s: State, userId: string)
  {
    userId in s.users && s.users[userId].otpEnable == 1
  }
}
