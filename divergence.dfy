/**
 * Where the two ports of the identity protocol disagree, stated side by side:
 * the policy for a missing record and the start-time field used as the token.
 */
module Divergence {
  import opened Decimal
  import opened ProcFs
  import Solaris
  import Illumos

  /**
   * For a live candidate without a record, Solaris reports our server and
   * illumos (its failed read leaving the string empty) reports a stranger.
   */
  lemma MissingRecordPoliciesDisagree(procs: ProcTable, files: map<string, string>, pid: int, outputBase: string)
    requires pid in procs && RecordPathFromOutputBase(outputBase) !in files
    ensures Solaris.IsServerProcess(procs, files, pid, outputBase)
    ensures !Illumos.IsServerProcess(procs, files, pid, outputBase, "")
  {
  }

  /** The ports render different fields, so their tokens differ whenever the fields do. */
  lemma TokensDifferAcrossPorts(info: PsInfo)
    requires info.start.sec != info.start.nsec
    ensures Solaris.StartTimeToken(info) != Illumos.StartTimeToken(info)
  {
    if Solaris.StartTimeToken(info) == Illumos.StartTimeToken(info) {
      DigitsInjective(AsULong(info.start.nsec), AsULong(info.start.sec));
      AsULongInjective(info.start.nsec, info.start.sec);
    }
  }

  /**
   * A record written by the Solaris port is rejected by the illumos verifier
   * for the very process that wrote it, unless its two start-time fields are equal.
   */
  lemma SolarisRecordRejectedByIllumos(procs: ProcTable, pid: int, outputBase: string, residue: string)
    requires pid in procs && procs[pid].start.sec != procs[pid].start.nsec
    ensures !Illumos.IsServerProcess(procs,
               map[RecordPathFromServerDir(GetRelative(outputBase, SERVER_DIR)) := Solaris.StartTimeToken(procs[pid])],
               pid, outputBase, residue)
  {
    TokensDifferAcrossPorts(procs[pid]);
  }
}
