/**
 * The Solaris client port: the server-identity protocol keyed on the
 * nanosecond field of the process start time, with a missing record accepted
 * as a match, and the fixed-buffer `readlink` routines.
 */
module Solaris {
  import opened Outcomes
  import opened Decimal
  import opened CBuffers
  import opened ProcFs

  /** The start-time token of a process: `%lu` of `pr_start.tv_nsec`. */
  function StartTimeToken(info: PsInfo): (t: string)
    ensures t != [] && AllDigits(t)
    ensures |t| <= 20
  {
    ULongDigitsFit(AsULong(info.start.nsec));
    Digits(AsULong(info.start.nsec))
  }

  /** What GetStartTime finds for `pid`: None when its psinfo record cannot be read. */
  function StartTime(procs: ProcTable, pid: int): Option<string> {
    match ReadPsInfo(procs, pid)
    case None => None
    case Some(info) => Some(StartTimeToken(info))
  }

  /** Two processes share a token exactly when their start times share the nanosecond field. */
  lemma StartTimeTokenInjective(a: PsInfo, b: PsInfo)
    ensures StartTimeToken(a) == StartTimeToken(b) <==> a.start.nsec == b.start.nsec
  {
    if StartTimeToken(a) == StartTimeToken(b) {
      DigitsInjective(AsULong(a.start.nsec), AsULong(b.start.nsec));
      AsULongInjective(a.start.nsec, b.start.nsec);
    }
  }

  /**
   * GetStartTime: read `/proc/<pid>/psinfo` and format the token into a
   * 128-character buffer. On failure `*start_time` is left as it was.
   */
  method GetStartTime(procs: ProcTable, pid: int, startTimeIn: string) returns (timeSet: bool, startTime: string)
    ensures timeSet <==> pid in procs
    ensures timeSet ==> startTime == StartTimeToken(procs[pid])
    ensures !timeSet ==> startTime == startTimeIn
  {
    timeSet, startTime := false, startTimeIn;
    var info := ReadPsInfo(procs, pid);
    if info.Some? {
      startTime := FormatULong(info.value.start.nsec);
      timeSet := true;
    }
  }

  /**
   * WriteSystemSpecificProcessIdentifier: probe the server's own pid and write
   * the token to `<server_dir>/server.starttime`; die when either step fails.
   */
  method WriteSystemSpecificProcessIdentifier(fs: FileSystem, procs: ProcTable, serverDir: string,
                                              serverPid: int, writable: bool)
    returns (r: Outcome<ExitCode>)
    modifies fs
    ensures serverPid !in procs ==> r == Fail(LOCAL_ENVIRONMENTAL_ERROR) && fs.files == old(fs.files)
    ensures serverPid in procs && !writable
            ==> r == Fail(LOCAL_ENVIRONMENTAL_ERROR) && fs.files == old(fs.files)
    ensures serverPid in procs && writable
            ==> r == Pass && fs.files == old(fs.files)[RecordPathFromServerDir(serverDir) := StartTimeToken(procs[serverPid])]
  {
    var timeSet, startTime := GetStartTime(procs, serverPid, "");
    if !timeSet {
      return Fail(LOCAL_ENVIRONMENTAL_ERROR);
    }
    var ok := fs.WriteFile(startTime, RecordPathFromServerDir(serverDir), writable);
    if !ok {
      return Fail(LOCAL_ENVIRONMENTAL_ERROR);
    }
    return Pass;
  }

  /**
   * The verdict of VerifyServerProcess: the candidate is our server when it is
   * alive and either no record exists or the record holds its token.
   */
  predicate IsServerProcess(procs: ProcTable, files: map<string, string>, pid: int, outputBase: string) {
    match StartTime(procs, pid)
    case None => false
    case Some(startTime) =>
      var path := RecordPathFromOutputBase(outputBase);
      path !in files || files[path] == startTime
  }

  /** VerifyServerProcess: re-probe the candidate and compare with the record. */
  method VerifyServerProcess(fs: FileSystem, procs: ProcTable, pid: int, outputBase: string) returns (r: bool)
    ensures r == IsServerProcess(procs, fs.files, pid, outputBase)
  {
    var timeSet, startTime := GetStartTime(procs, pid, "");
    if !timeSet {
      return false;
    }
    var recorded := fs.ReadFile(RecordPathFromOutputBase(outputBase));
    var filePresent := recorded.Some?;
    var recordedStartTime := recorded.GetOr("");
    return !filePresent || recordedStartTime == startTime;
  }

  /** A candidate whose psinfo cannot be read is never our server, whatever the record holds. */
  lemma DeadProcessNeverMatches(procs: ProcTable, files: map<string, string>, pid: int, outputBase: string)
    requires pid !in procs
    ensures !IsServerProcess(procs, files, pid, outputBase)
  {
  }

  /** A live candidate with no record is accepted (a server too old to write records). */
  lemma MissingRecordMatches(procs: ProcTable, files: map<string, string>, pid: int, outputBase: string)
    requires pid in procs && RecordPathFromOutputBase(outputBase) !in files
    ensures IsServerProcess(procs, files, pid, outputBase)
  {
  }

  /** A live candidate with a record is accepted exactly when the record equals its token. */
  lemma RecordComparedWithToken(procs: ProcTable, files: map<string, string>, pid: int, outputBase: string)
    requires pid in procs && RecordPathFromOutputBase(outputBase) in files
    ensures IsServerProcess(procs, files, pid, outputBase)
            <==> files[RecordPathFromOutputBase(outputBase)] == StartTimeToken(procs[pid])
  {
  }

  /**
   * Record then verify: after the server at `pid` recorded its token under
   * `<output_base>/server`, a later probe of `pid` that yields the same token
   * is accepted.
   */
  lemma RecordThenVerify(procs: ProcTable, later: ProcTable, files: map<string, string>, pid: int, outputBase: string)
    requires pid in procs && pid in later
    requires StartTimeToken(later[pid]) == StartTimeToken(procs[pid])
    ensures IsServerProcess(later,
              files[RecordPathFromServerDir(GetRelative(outputBase, SERVER_DIR)) := StartTimeToken(procs[pid])],
              pid, outputBase)
  {
  }

  /**
   * No false positive across pid reuse when a record exists: a process whose
   * start time differs in the nanosecond field from the recorded server's is
   * rejected.
   */
  lemma ReusedPidRejected(recordedServer: PsInfo, procs: ProcTable, files: map<string, string>, pid: int, outputBase: string)
    requires pid in procs && recordedServer.start.nsec != procs[pid].start.nsec
    requires RecordPathFromOutputBase(outputBase) in files
    requires files[RecordPathFromOutputBase(outputBase)] == StartTimeToken(recordedServer)
    ensures !IsServerProcess(procs, files, pid, outputBase)
  {
    StartTimeTokenInjective(recordedServer, procs[pid]);
  }

  /**
   * The token keeps only the nanosecond field: a process started a whole
   * number of seconds earlier or later, at the same nanosecond offset, is
   * taken for the recorded server.
   */
  lemma SecondsAreIgnored(recordedServer: PsInfo, procs: ProcTable, pid: int, outputBase: string)
    requires pid in procs && procs[pid].start.nsec == recordedServer.start.nsec
    ensures IsServerProcess(procs, map[RecordPathFromOutputBase(outputBase) := StartTimeToken(recordedServer)], pid, outputBase)
  {
  }

  /**
   * GetSelfPath: read the `/proc/<pid>/path/a.out` link into a zeroed
   * PATH_MAX buffer with room for PATH_MAX - 1 characters. A result that fills
   * that room is taken as truncation and is fatal; otherwise the terminator
   * goes right after the characters read. `selfAlive` is `kill(getpid(), 0)
   * >= 0`; `link` is the link's target, None when `readlink` fails.
   */
  method GetSelfPath(selfAlive: bool, link: Option<string>) returns (r: Result<string, ExitCode>)
    ensures !selfAlive ==> r == Success("")
    ensures selfAlive && link.None? ==> r == Failure(INTERNAL_ERROR)
    ensures selfAlive && link.Some? && |link.value| >= PATH_MAX - 1 ==> r == Failure(INTERNAL_ERROR)
    ensures selfAlive && link.Some? && |link.value| < PATH_MAX - 1 ==> r == Success(CStr(link.value))
    ensures selfAlive && link.Some? && |link.value| < PATH_MAX - 1 && NUL !in link.value ==> r == Success(link.value)
  {
    var bufferTarget := new char[PATH_MAX](_ => NUL);
    if !selfAlive {
      return Success("");
    }
    var bytes := Readlink(link, bufferTarget, PATH_MAX - 1);
    if bytes == PATH_MAX - 1 {
      bytes := -1;
    }
    if bytes == -1 {
      return Failure(INTERNAL_ERROR);
    }
    bufferTarget[bytes] := NUL;
    var s := ReadCString(bufferTarget);
    CStrStopsAtNul(bufferTarget[..], bytes);
    assert bufferTarget[..][..bytes] == link.value;
    if NUL !in link.value {
      CStrOfNulFree(link.value);
    }
    return Success(s);
  }

  /**
   * GetProcessCWD: read the `/proc/<pid>/cwd` link into a zeroed buffer of
   * PATH_MAX characters; an empty path when `readlink` fails.
   */
  method GetProcessCWD(cwdLink: Option<string>) returns (r: string)
    requires cwdLink.Some? ==> |cwdLink.value| < PATH_MAX
    ensures cwdLink.None? ==> r == ""
    ensures cwdLink.Some? ==> r == CStr(cwdLink.value)
  {
    var serverCwd := new char[PATH_MAX](_ => NUL);
    var n := Readlink(cwdLink, serverCwd, PATH_MAX);
    if n < 0 {
      return "";
    }
    assert serverCwd[n] == NUL;
    r := ReadCString(serverCwd);
    CStrStopsAtNul(serverCwd[..], n);
    assert serverCwd[..][..n] == cwdLink.value;
  }
}
