/**
 * The parts of the operating system the identity protocol reads and writes:
 * the psinfo records under /proc, and the files of the server's directory.
 */
module ProcFs {
  import opened Outcomes
  import opened Decimal

  /** A `timestruc_t`: seconds and nanoseconds. */
  datatype Timespec = Timespec(sec: Long, nsec: Long)

  /** The fields of a `psinfo_t` that the client reads: the process id and its start time. */
  datatype PsInfo = PsInfo(pid: int, start: Timespec)

  /**
   * The live processes whose psinfo record can be opened and read, by pid.
   * A pid missing from the map is one for which `fopen`/`fread` of
   * `/proc/<pid>/psinfo` fails: the process is gone or cannot be inspected.
   */
  type ProcTable = map<int, PsInfo>

  function ReadPsInfo(procs: ProcTable, pid: int): (r: Option<PsInfo>)
    ensures r.Some? <==> pid in procs
    ensures r.Some? ==> r.value == procs[pid]
  {
    if pid in procs then Some(procs[pid]) else None
  }

  /** `Path::GetRelative`: a path below `base`. */
  function GetRelative(base: string, rel: string): string {
    base + "/" + rel
  }

  /** Name of the server's directory under the output base. */
  const SERVER_DIR: string := "server"

  /** Name of the file that records the server's start time. */
  const START_TIME_FILE: string := "server.starttime"

  /** Where the server writes the record: `<server_dir>/server.starttime`, a file directly below `server_dir`. */
  function RecordPathFromServerDir(serverDir: string): (p: string)
    ensures |p| == |serverDir| + 1 + |START_TIME_FILE|
    ensures p[..|serverDir|] == serverDir && p[|serverDir|] == '/'
    ensures p[|serverDir| + 1..] == START_TIME_FILE
  {
    GetRelative(serverDir, START_TIME_FILE)
  }

  /**
   * Where the client looks for the record: `<output_base>/server/server.starttime`,
   * the very file the server writes when `server_dir` is `<output_base>/server`.
   */
  function RecordPathFromOutputBase(outputBase: string): (p: string)
    ensures p == RecordPathFromServerDir(GetRelative(outputBase, SERVER_DIR))
  {
    GetRelative(outputBase, SERVER_DIR + "/" + START_TIME_FILE)
  }

  /** The files the client and the server share, by path. */
  class FileSystem {
    var files: map<string, string>

    constructor (initial: map<string, string>)
      ensures files == initial
    {
      files := initial;
    }

    /** `blaze_util::ReadFile`: the contents, or None when the file cannot be read. */
    function ReadFile(path: string): (r: Option<string>)
      reads this
      ensures r.Some? <==> path in files
      ensures r.Some? ==> r.value == files[path]
    {
      if path in files then Some(files[path]) else None
    }

    /**
     * `blaze_util::WriteFile`: replaces the file's contents. Whether the write
     * succeeds (the directory is writable, the disk is not full) is `writable`.
     */
    method WriteFile(contents: string, path: string, writable: bool) returns (ok: bool)
      modifies this
      ensures ok == writable
      ensures files == if writable then old(files)[path := contents] else old(files)
    {
      ok := writable;
      if writable {
        files := files[path := contents];
      }
    }
  }
}
