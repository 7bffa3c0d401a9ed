/** The backup-code record of one user and its validation. */
module OtpBackupCode {
  import opened Common

  /** The `codes` column: a JSON text. It is either the empty string (falsy)
      or the serialisation of a list of codes; the model keeps the list and
      takes `JSON.parse(JSON.stringify(list))` to give the list back. */
  datatype CodesField = Blank | Json(list: seq<string>)

  /** `OtpBackupCodeProps`. */
  datatype OtpBackupCode = OtpBackupCode(
    id: int,
    userId: string,
    codes: CodesField,
    nbCodeUsed: int,
    nbConsecutiveTests: int)

  function UserIdOf(cb: OtpBackupCode): string
  {
    cb.userId
  }

  const CodesRequired := "codes is required"
  const NbCodeUsedRequired := "nb_code_used is required"
  const NbConsecutiveTestsRequired := "nb_consecutive_tests is required"

  /** `validateOrThrow`: the message of the first check that fails, in source
      order (codes, then used count, then failure count), or `None` when the
      record is valid. It succeeds exactly when the codes text is non-empty
      and both counters are non-negative. */
  function ValidateOrThrow(props: OtpBackupCode): (error: Option<string>)
    ensures error.None? <==> props.codes.Json? && props.nbCodeUsed >= 0 && props.nbConsecutiveTests >= 0
    ensures props.codes.Blank? ==> error == Some(CodesRequired)
    ensures props.codes.Json? && props.nbCodeUsed < 0 ==> error == Some(NbCodeUsedRequired)
    ensures props.codes.Json? && props.nbCodeUsed >= 0 && props.nbConsecutiveTests < 0 ==> error == Some(NbConsecutiveTestsRequired)
  {
    if props.codes.Blank? then Some(CodesRequired)
    else if props.nbCodeUsed < 0 then Some(NbCodeUsedRequired)
    else if props.nbConsecutiveTests < 0 then Some(NbConsecutiveTestsRequired)
    else None
  }
}
