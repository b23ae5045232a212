/**
 * The illumos client port: the server-identity protocol keyed on the seconds
 * field of the process start time, comparing whatever the record read left
 * behind, and the `readlink` of the server's working directory.
 */
module Illumos {
  import opened Outcomes
  import opened Decimal
  import opened CBuffers
  import opened ProcFs

  /** The start-time token of a process: `%lu` of `pr_start.tv_sec`. */
  function StartTimeToken(info: PsInfo): (t: string)
    ensures t != [] && AllDigits(t)
    ensures |t| <= 20
  {
    ULongDigitsFit(AsULong(info.start.sec));
    Digits(AsULong(info.start.sec))
  }

  /** What GetStartTime finds for `pid`: None when its psinfo record cannot be read. */
  function StartTime(procs: ProcTable, pid: int): Option<string> {
    match ReadPsInfo(procs, pid)
    case None => None
    case Some(info) => Some(StartTimeToken(info))
  }

  /** Two processes share a token exactly when their start times share the seconds field. */
  lemma StartTimeTokenInjective(a: PsInfo, b: PsInfo)
    ensures StartTimeToken(a) == StartTimeToken(b) <==> a.start.sec == b.start.sec
  {
    if StartTimeToken(a) == StartTimeToken(b) {
      DigitsInjective(AsULong(a.start.sec), AsULong(b.start.sec));
      AsULongInjective(a.start.sec, b.start.sec);
    }
  }

  /**
   * GetStartTime: read `/proc/<pid>/psinfo` and format the token into a
   * 128-character buffer. On failure `*start_time` is left as it was.
   */
  method GetStartTime(procs: ProcTable, pid: int, startTimeIn: string) returns (timeSet: bool, startTime: string)
    ensures timeSet <==> pid in procs
    ensures timeSet ==> startTime == StartTimeToken(procs[pid])
    ensures !timeSet ==> startTime == startTimeIn
  {
    timeSet, startTime := false, startTimeIn;
    var info := ReadPsInfo(procs, pid);
    if info.Some? {
      startTime := FormatULong(info.value.start.sec);
      timeSet := true;
    }
  }

  /**
   * WriteSystemSpecificProcessIdentifier: probe the server's own pid and write
   * the token to `<server_dir>/server.starttime`; die when either step fails.
   */
  method WriteSystemSpecificProcessIdentifier(fs: FileSystem, procs: ProcTable, serverDir: string,
                                              serverPid: int, writable: bool)
    returns (r: Outcome<ExitCode>)
    modifies fs
    ensures serverPid !in procs ==> r == Fail(LOCAL_ENVIRONMENTAL_ERROR) && fs.files == old(fs.files)
    ensures serverPid in procs && !writable
            ==> r == Fail(LOCAL_ENVIRONMENTAL_ERROR) && fs.files == old(fs.files)
    ensures serverPid in procs && writable
            ==> r == Pass && fs.files == old(fs.files)[RecordPathFromServerDir(serverDir) := StartTimeToken(procs[serverPid])]
  {
    var timeSet, startTime := GetStartTime(procs, serverPid, "");
    if !timeSet {
      return Fail(LOCAL_ENVIRONMENTAL_ERROR);
    }
    var ok := fs.WriteFile(startTime, RecordPathFromServerDir(serverDir), writable);
    if !ok {
      return Fail(LOCAL_ENVIRONMENTAL_ERROR);
    }
    return Pass;
  }

  /**
   * The string VerifyServerProcess compares: the record's contents, or, when
   * `ReadFile` fails, `residue`, whatever that failed call leaves in its
   * output string.
   */
  function RecordedStartTime(files: map<string, string>, outputBase: string, residue: string): string {
    var path := RecordPathFromOutputBase(outputBase);
    if path in files then files[path] else residue
  }

  /**
   * The verdict of VerifyServerProcess: the candidate is our server when it is
   * alive and the recorded string equals its token; whether the read succeeded
   * is not consulted.
   */
  predicate IsServerProcess(procs: ProcTable, files: map<string, string>, pid: int, outputBase: string, residue: string) {
    match StartTime(procs, pid)
    case None => false
    case Some(startTime) => RecordedStartTime(files, outputBase, residue) == startTime
  }

  /**
   * VerifyServerProcess: re-probe the candidate and compare with the record.
   * `residue` is what `ReadFile` leaves in `recorded_start_time` when it fails.
   */
  method VerifyServerProcess(fs: FileSystem, procs: ProcTable, pid: int, outputBase: string, residue: string)
    returns (r: bool)
    ensures r == IsServerProcess(procs, fs.files, pid, outputBase, residue)
  {
    var timeSet, startTime := GetStartTime(procs, pid, "");
    if !timeSet {
      return false;
    }
    var recorded := fs.ReadFile(RecordPathFromOutputBase(outputBase));
    var filePresent := recorded.Some?;
    var recordedStartTime := if filePresent then recorded.value else residue;
    return recordedStartTime == startTime;
  }

  /** A candidate whose psinfo cannot be read is never our server. */
  lemma DeadProcessNeverMatches(procs: ProcTable, files: map<string, string>, pid: int, outputBase: string, residue: string)
    requires pid !in procs
    ensures !IsServerProcess(procs, files, pid, outputBase, residue)
  {
  }

  /** A live candidate is accepted exactly when the recorded string equals its token. */
  lemma RecordedStringComparedWithToken(procs: ProcTable, files: map<string, string>, pid: int, outputBase: string, residue: string)
    requires pid in procs
    ensures IsServerProcess(procs, files, pid, outputBase, residue)
            <==> RecordedStartTime(files, outputBase, residue) == StartTimeToken(procs[pid])
  {
  }

  /**
   * A missing record is never a match when the failed read leaves the string
   * empty, as it was declared: every token has at least one digit.
   */
  lemma MissingRecordRejected(procs: ProcTable, files: map<string, string>, pid: int, outputBase: string)
    requires RecordPathFromOutputBase(outputBase) !in files
    ensures !IsServerProcess(procs, files, pid, outputBase, "")
  {
  }

  /**
   * Record then verify: after the server at `pid` recorded its token under
   * `<output_base>/server`, a later probe of `pid` that yields the same token
   * is accepted, whatever a failed read would have left.
   */
  lemma RecordThenVerify(procs: ProcTable, later: ProcTable, files: map<string, string>, pid: int,
                         outputBase: string, residue: string)
    requires pid in procs && pid in later
    requires StartTimeToken(later[pid]) == StartTimeToken(procs[pid])
    ensures IsServerProcess(later,
              files[RecordPathFromServerDir(GetRelative(outputBase, SERVER_DIR)) := StartTimeToken(procs[pid])],
              pid, outputBase, residue)
  {
  }

  /**
   * No false positive across pid reuse: a process whose start time differs in
   * the seconds field from the recorded server's is rejected.
   */
  lemma ReusedPidRejected(recordedServer: PsInfo, procs: ProcTable, files: map<string, string>, pid: int,
                          outputBase: string, residue: string)
    requires pid in procs && recordedServer.start.sec != procs[pid].start.sec
    requires RecordPathFromOutputBase(outputBase) in files
    requires files[RecordPathFromOutputBase(outputBase)] == StartTimeToken(recordedServer)
    ensures !IsServerProcess(procs, files, pid, outputBase, residue)
  {
    StartTimeTokenInjective(recordedServer, procs[pid]);
  }

  /**
   * GetProcessCWD: look up the psinfo record of `pid` (dying when that fails),
   * read the link `/proc/<pr_pid>/path/cwd` into a PATH_MAX buffer with room
   * for PATH_MAX - 1 characters (dying on failure or an empty result), and
   * terminate it right after the characters read. `cwdLink` gives the
   * link's target for a pid, None when `readlink` fails. A longer target is
   * cut to PATH_MAX - 1 characters without notice.
   */
  method GetProcessCWD(procs: ProcTable, pid: int, cwdLink: int -> Option<string>) returns (r: Result<string, ExitCode>)
    ensures pid !in procs ==> r == Failure(INTERNAL_ERROR)
    ensures pid in procs && (cwdLink(procs[pid].pid).None? || cwdLink(procs[pid].pid) == Some(""))
            ==> r == Failure(INTERNAL_ERROR)
    ensures pid in procs && cwdLink(procs[pid].pid).Some? && cwdLink(procs[pid].pid).value != ""
            ==> var target := cwdLink(procs[pid].pid).value;
                r == Success(CStr(target[..Min(|target|, PATH_MAX - 1)]))
  {
    // The buffer is not initialised; nothing below depends on its contents.
    var cwd := new char[PATH_MAX];
    var psinfo := ReadPsInfo(procs, pid);
    if psinfo.None? {
      return Failure(INTERNAL_ERROR);
    }
    var link := cwdLink(psinfo.value.pid);
    var retReadlink := Readlink(link, cwd, PATH_MAX - 1);
    if retReadlink <= 0 {
      return Failure(INTERNAL_ERROR);
    }
    cwd[retReadlink] := NUL;
    var s := ReadCString(cwd);
    CStrStopsAtNul(cwd[..], retReadlink);
    assert cwd[..][..retReadlink] == link.value[..retReadlink];
    return Success(s);
  }
}
