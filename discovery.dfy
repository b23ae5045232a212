/**
 * Startup discovery routines of the Solaris and illumos clients: the output
 * root, the `PATH` search for an executable, and the system Java installation.
 * Environment variables and filesystem queries are inputs; the blaze_util
 * path helpers (Split, JoinPath, Dirname) are not part of this model and are
 * passed in as functions.
 */
module Discovery {
  import opened Outcomes

  /** The type of a file as `stat` reports it. */
  datatype FileType = RegularFile | Directory | OtherFile

  /** The answers of the operating system to the queries these routines make. */
  datatype Host = Host(
    /** GetEnv: the variable's value, "" when it is unset. */
    getEnv: string -> string,
    /** GetHomeDir(). */
    homeDir: string,
    /** `getpwuid_r(getuid(), ...)`: the user's `pw_dir`, None when the lookup fails. */
    passwdDir: Option<string>,
    /** `access(path, X_OK) == 0`. */
    accessX: string -> bool,
    /** `stat(path, ...)`: None when it fails, else the file's type. */
    stat: string -> Option<FileType>,
    /** `realpath(path, ...)`: None when it fails, else the resolved path. */
    realpath: string -> Option<string>)

  /** The blaze_util path helpers these routines call. */
  datatype PathUtil = PathUtil(
    split: (string, char) -> seq<string>,
    joinPath: (string, string) -> string,
    dirname: string -> string)

  const CACHE_SUFFIX: string := ".cache/bazel"
  const FALLBACK_OUTPUT_ROOT: string := "/tmp"

  /**
   * GetOutputRoot: `<base>/.cache/bazel` for the first non-empty base among the
   * home directory and the password entry's directory, else "/tmp".
   */
  function GetOutputRoot(host: Host, util: PathUtil): (r: string)
    ensures host.homeDir != "" ==> r == util.joinPath(host.homeDir, CACHE_SUFFIX)
    ensures host.homeDir == "" && host.passwdDir.Some? && host.passwdDir.value != ""
            ==> r == util.joinPath(host.passwdDir.value, CACHE_SUFFIX)
    ensures host.homeDir == "" && (host.passwdDir.None? || host.passwdDir.value == "")
            ==> r == FALLBACK_OUTPUT_ROOT
  {
    var base := if host.homeDir != "" then host.homeDir else host.passwdDir.GetOr("");
    if base != "" then util.joinPath(base, CACHE_SUFFIX) else FALLBACK_OUTPUT_ROOT
  }

  /** An empty `PATH` component stands for the current directory. */
  function PieceDir(piece: string): (d: string)
    ensures d != ""
    ensures piece != "" ==> d == piece
    ensures piece == "" ==> d == "."
  {
    if piece == "" then "." else piece
  }

  /** The file Which tries for one `PATH` component. */
  function Candidate(piece: string, exe: string, util: PathUtil): string {
    util.joinPath(PieceDir(piece), exe)
  }

  /** The test Which applies to a candidate: executable by us and a regular file. */
  predicate Usable(host: Host, path: string) {
    host.accessX(path) && host.stat(path) == Some(RegularFile)
  }

  /** The first usable candidate among `pieces`, in order, or "" when there is none. */
  function FirstUsable(pieces: seq<string>, exe: string, host: Host, util: PathUtil): string {
    if pieces == [] then ""
    else if Usable(host, Candidate(pieces[0], exe, util)) then Candidate(pieces[0], exe, util)
    else FirstUsable(pieces[1..], exe, host, util)
  }

  /** What Which returns: nothing for an empty `PATH`, else the first usable candidate. */
  function WhichResult(exe: string, host: Host, util: PathUtil): string {
    var path := host.getEnv("PATH");
    if path == "" then "" else FirstUsable(util.split(path, ':'), exe, host, util)
  }

  /** When component `k` gives the first usable candidate, that candidate is the answer. */
  lemma {:induction false} FirstUsableFindsFirst(pieces: seq<string>, exe: string, host: Host, util: PathUtil, k: nat)
    requires k < |pieces| && Usable(host, Candidate(pieces[k], exe, util))
    requires forall j :: 0 <= j < k ==> !Usable(host, Candidate(pieces[j], exe, util))
    ensures FirstUsable(pieces, exe, host, util) == Candidate(pieces[k], exe, util)
  {
    if k > 0 {
      assert !Usable(host, Candidate(pieces[0], exe, util));
      FirstUsableFindsFirst(pieces[1..], exe, host, util, k - 1);
    }
  }

  /** When no candidate is usable, the answer is "". */
  lemma {:induction false} FirstUsableNone(pieces: seq<string>, exe: string, host: Host, util: PathUtil)
    requires forall j :: 0 <= j < |pieces| ==> !Usable(host, Candidate(pieces[j], exe, util))
    ensures FirstUsable(pieces, exe, host, util) == ""
  {
    if pieces != [] {
      assert !Usable(host, Candidate(pieces[0], exe, util));
      FirstUsableNone(pieces[1..], exe, host, util);
    }
  }

  /**
   * Which: search the components of `PATH` in order for one under which `exe`
   * is an executable regular file.
   */
  method Which(exe: string, host: Host, util: PathUtil) returns (r: string)
    ensures r == WhichResult(exe, host, util)
    ensures host.getEnv("PATH") == "" ==> r == ""
  {
    var path := host.getEnv("PATH");
    if path == "" {
      return "";
    }
    var pieces := util.split(path, ':');
    var i := 0;
    while i < |pieces|
      invariant 0 <= i <= |pieces|
      invariant FirstUsable(pieces[i..], exe, host, util) == FirstUsable(pieces, exe, host, util)
    {
      var piece := pieces[i];
      if piece == "" {
        piece := ".";
      }
      var candidate := util.joinPath(piece, exe);
      if host.accessX(candidate) && host.stat(candidate) == Some(RegularFile) {
        assert candidate == Candidate(pieces[i..][0], exe, util);
        return candidate;
      }
      assert pieces[i..][1..] == pieces[i + 1..];
      i := i + 1;
    }
    return "";
  }

  /**
   * GetSystemJavabase: a non-empty JAVA_HOME as it is; else the directory two
   * levels above the resolved `javac` found on `PATH`; else "".
   */
  method GetSystemJavabase(host: Host, util: PathUtil) returns (r: string)
    ensures host.getEnv("JAVA_HOME") != "" ==> r == host.getEnv("JAVA_HOME")
    ensures host.getEnv("JAVA_HOME") == "" && WhichResult("javac", host, util) == "" ==> r == ""
    ensures host.getEnv("JAVA_HOME") == "" && WhichResult("javac", host, util) != ""
            ==> r == match host.realpath(WhichResult("javac", host, util))
                     case None => ""
                     case Some(resolved) => util.dirname(util.dirname(resolved))
  {
    var javahome := host.getEnv("JAVA_HOME");
    if javahome != "" {
      return javahome;
    }
    var javacDir := Which("javac", host, util);
    if javacDir == "" {
      return "";
    }
    var resolved := host.realpath(javacDir);
    if resolved.None? {
      return "";
    }
    javacDir := resolved.value;
    return util.dirname(util.dirname(javacDir));
  }
}
