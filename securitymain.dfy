// The entry point of the security report: load the records, then the
// network ACL report, then the security group report.

module SecurityMain {
  import opened Wrappers
  import opened Records
  import opened Security
  import opened SecurityReport
  import opened GroupDump

  /** Everything `main` prints: the ACL report followed by the security
      group report. A crash in either ends the output; the model then
      returns only the exception, not what was printed before it. */
  function SecurityOutput(db: Db, names: ProtocolNames): (r: Result<seq<string>>)
    ensures r.Success? <==> AclReport(db, names).Success? && SgReport(db).Success?
    ensures r.Success? ==> r.value == AclReport(db, names).value + SgReport(db).value
    ensures r.Failure? && AclReport(db, names).Failure? ==> r.error == AclReport(db, names).error
    ensures r.Failure? && AclReport(db, names).Success? ==> r.error == SgReport(db).error
  {
    var acls :- AclReport(db, names);
    var groups :- SgReport(db);
    Success(acls + groups)
  }

  /** `main`: a fresh store is filled from the records that pass the
      profile and region filters, and both reports are printed from it. */
  method ReportSecurity(records: seq<Record>, profiles: seq<string>, regions: seq<string>, names: ProtocolNames)
    returns (r: Result<seq<string>>)
    ensures r == SecurityOutput(IngestAll(EmptyDb(), records, profiles, regions), names)
  {
    var store := new Store();
    store.Load(records, profiles, regions);
    var db := store.Snapshot();
    var acls := DumpAllAcl(db, names);
    if acls.Failure? {
      return Failure(acls.error);
    }
    var groups := DumpAllSg(db);
    if groups.Failure? {
      return Failure(groups.error);
    }
    r := Success(acls.value + groups.value);
  }
}
