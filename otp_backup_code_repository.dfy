/** The in-memory backup-code repository: an array of records, appended to by
    `save`, searched front to back by `findByUserId`, filtered by
    `deleteByUserId` and overwritten at one index by `update`. */
module OtpBackupCodeRepository {
  import opened Common
  import opened Seqs
  import opened OtpBackupCode

  /** `findByUserId` on a sequence of records. */
  function FindRecord(records: seq<OtpBackupCode>, userId: string): (r: Option<OtpBackupCode>)
    ensures r.None? <==> forall j :: 0 <= j < |records| ==> records[j].userId != userId
    ensures r.Some? ==> r.value in records && r.value.userId == userId
    ensures r.Some? ==> forall j :: 0 <= j < IndexOf(records, UserIdOf, userId) ==> records[j].userId != userId
    ensures r.Some? ==> IndexOf(records, UserIdOf, userId) >= 0 && r.value == records[IndexOf(records, UserIdOf, userId)]
  {
    FindFirst(records, UserIdOf, userId)
  }

  /** The records after `deleteByUserId(userId)`. */
  function WithoutUser(records: seq<OtpBackupCode>, userId: string): (r: seq<OtpBackupCode>)
    ensures forall j :: 0 <= j < |r| ==> r[j].userId != userId
    ensures FindRecord(r, userId).None?
    ensures forall j :: 0 <= j < |r| ==> r[j] in records
    ensures forall j :: 0 <= j < |records| && records[j].userId != userId ==> records[j] in r
  {
    RemoveAll(records, UserIdOf, userId)
  }

  /** The records after `update(record)`: the first record of the same user is
      replaced, and nothing happens when that user has none. */
  function WithUpdate(records: seq<OtpBackupCode>, record: OtpBackupCode): (r: seq<OtpBackupCode>)
    ensures |r| == |records|
    ensures FindRecord(records, record.userId).None? ==> r == records
    ensures FindRecord(records, record.userId).Some? ==>
      r == records[IndexOf(records, UserIdOf, record.userId) := record]
  {
    ReplaceFirst(records, UserIdOf, record)
  }

  class InMemoryOtpBackupCodeRepository {
    var codesBackup: seq<OtpBackupCode>

    constructor ()
      ensures codesBackup == []
    {
      codesBackup := [];
    }

    /** `save`: appends, with no uniqueness check. */
    method Save(codeBackup: OtpBackupCode) returns (saved: OtpBackupCode)
      modifies this
      ensures codesBackup == old(codesBackup) + [codeBackup]
      ensures saved == codeBackup
    {
      codesBackup := codesBackup + [codeBackup];
      saved := codeBackup;
    }

    /** `findByUserId`: the first record of that user, or null. */
    function FindByUserId(id: string): (r: Option<OtpBackupCode>)
      reads this
      ensures r == FindRecord(codesBackup, id)
    {
      FindRecord(codesBackup, id)
    }

    /** `deleteByUserId`: keeps, in order, every record of another user. */
    method DeleteByUserId(id: string)
      modifies this
      ensures codesBackup == WithoutUser(old(codesBackup), id)
    {
      codesBackup := RemoveAll(codesBackup, UserIdOf, id);
    }

    /** `update`: overwrites the first record of the same user in place; a
        silent no-op when the user has none. */
    method Update(codeBackup: OtpBackupCode) returns (updated: OtpBackupCode)
      modifies this
      ensures codesBackup == WithUpdate(old(codesBackup), codeBackup)
      ensures |codesBackup| == |old(codesBackup)|
      ensures updated == codeBackup
    {
      var index := IndexOf(codesBackup, UserIdOf, codeBackup.userId);
      if index != -1 {
        codesBackup := codesBackup[index := codeBackup];
      }
      updated := codeBackup;
    }
  }

  /** `deleteByUserId(u)` followed by `save` of a record of `u` leaves exactly
      one record of `u`, and it is the one `findByUserId` returns. */
  lemma DeleteThenSaveLeavesOne(records: seq<OtpBackupCode>, record: OtpBackupCode)
    ensures CountKey(WithoutUser(records, record.userId) + [record], UserIdOf, record.userId) == 1
    ensures FindRecord(WithoutUser(records, record.userId) + [record], record.userId) == Some(record)
  {
    RemoveAllThenAppend(records, UserIdOf, record);
  }

  /** An update is seen by the next lookup of that user, and by no other. */
  lemma FindAfterUpdate(records: seq<OtpBackupCode>, record: OtpBackupCode, userId: string)
    requires FindRecord(records, record.userId).Some?
    ensures userId == record.userId ==> FindRecord(WithUpdate(records, record), userId) == Some(record)
    ensures userId != record.userId ==> FindRecord(WithUpdate(records, record), userId) == FindRecord(records, userId)
  {
    if userId == record.userId {
      FindAfterReplace(records, UserIdOf, record);
    } else {
      FindOtherAfterReplace(records, UserIdOf, record, userId);
    }
  }
}
