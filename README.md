# Server identity on the Solaris and illumos clients, in Dafny

The Bazel client keeps one long-running server per output base. It finds that
server again by its pid, and it has to tell the server apart from an unrelated
process that later received the same pid. The Solaris and illumos ports do
this with a start-time token:

- **Probe.** `GetStartTime` reads the candidate's `/proc/<pid>/psinfo` record.
  It formats one field of `pr_start` with `%lu` into a 128-character buffer.
- **Record.** `WriteSystemSpecificProcessIdentifier` is called with the
  server's pid. It probes that pid and writes the token to
  `<server_dir>/server.starttime`. It dies if either step fails.
- **Verify.** `VerifyServerProcess` probes the candidate again and compares the
  fresh token with `<output_base>/server/server.starttime`.

The two ports differ, and the model keeps each as written:

- Solaris renders `tv_nsec` and accepts a missing record as a match.
- illumos renders `tv_sec` and compares whatever the failed read left in the
  string.

The module `Divergence` states these differences as lemmas.

The model also covers the small routines in the same files:

- the millisecond clocks;
- `GetOutputRoot`, the `PATH` search `Which`, and `GetSystemJavabase`;
- the `readlink`-into-a-fixed-buffer routines `GetSelfPath` (Solaris) and
  `GetProcessCWD`.

It also models the Java `BazelFileSystemModule`. Its `globalInit` installs a
set-once default digest hash function. Its `getFileSystem` gives a
JavaIoFileSystem over that default, and fails with
DefaultHashFunctionNotSetException while no default is set.

Layout, one module per file:

- `outcomes.dfy` (`Outcomes`): Option, Result, Outcome and the client's exit codes.
- `decimal.dfy` (`Decimal`): the 64-bit `long`, its `%lu` reinterpretation, and
  decimal digits with their read-back and length bound.
- `cbuffers.dfy` (`CBuffers`): C character buffers. It models `sprintf`, `readlink`
  and `std::string(char*)` on `array<char>`.
- `procfs.dfy` (`ProcFs`): psinfo records, the process table, record paths, and
  a `FileSystem` class whose `files` map `WriteFile` updates in place.
- `clock.dfy` (`Clock`): the millisecond conversion.
- `discovery.dfy` (`Discovery`): output root, `Which`, `GetSystemJavabase`.
- `solaris.dfy` (`Solaris`), `illumos.dfy` (`Illumos`): the two ports.
- `divergence.dfy` (`Divergence`): the two ports side by side.
- `filesystem_module.dfy` (`FileSystemModule`): the Java module.

Operating-system calls are inputs:

- **psinfo.** The readable psinfo records form a `map<int, PsInfo>`. A pid
  missing from it is one whose `fopen`/`fread` fails.
- **Files.** The files are the `files` field of a `FileSystem` object. Whether
  a write succeeds is a boolean input.
- **Links.** A link target is an `Option<string>`. None means `readlink` fails.
- **Queries.** `GetEnv`, `GetHomeDir`, `getpwuid_r`, `access`, `stat` and
  `realpath` are fields of a `Host` value.
- **Path helpers.** `blaze_util::Split`, `JoinPath` and `Dirname` are
  function parameters (`PathUtil`). util/strings.cc and util/path.cc are not
  part of this model.
- **Record path.** `Path::GetRelative` is modelled as joining with "/". Under
  that join, `<output_base>/server` + `server.starttime` is the path the
  verifier reads (`ProcFs.RecordPathFromOutputBase`).

`BAZEL_DIE` becomes an error result carrying its exit code.

Two facts about the code that a reader might not expect:

- Verification returns a boolean and has no outcome of its own for a missing
  record. Solaris accepts one. illumos compares the string the failed
  `ReadFile` left, so a missing record gives `false` when that string stays
  empty (`Illumos.MissingRecordRejected`).
- Solaris renders `tv_nsec` and illumos `tv_sec`. Each port is consistent with
  itself, since recording and verifying share one `GetStartTime`.

## Model

| member | source | states |
|---|---|---|
| `Decimal.AsULong` | src/main/cpp/blaze_util_solaris.cc:198 | `%lu` of a `long` is a value below 2^64: the long itself when non-negative, else the long plus 2^64, which is at least 2^63 |
| `Decimal.AsULongInjective` | src/main/cpp/blaze_util_illumos.cc:174 | two longs with the same `%lu` value are equal |
| `Decimal.Digits` | src/main/cpp/blaze_util_solaris.cc:197-199 | the rendering is a non-empty string of decimal digits with no leading zero (except "0" itself) |
| `Decimal.ValueOfDigits` | src/main/cpp/blaze_util_solaris.cc:198 | reading the digits back gives the number rendered (round trip) |
| `Decimal.DigitsInjective` | src/main/cpp/blaze_util_illumos.cc:174 | distinct numbers give distinct digit strings |
| `Decimal.DigitsLengthBound` | src/main/cpp/blaze_util_solaris.cc:197 | a number below 10^k has at most k digits |
| `Decimal.ULongDigitsFit` | src/main/cpp/blaze_util_solaris.cc:197-198 | every `unsigned long` renders in at most 20 digits, so it and its terminator fit `char buffer[128]` |
| `CBuffers.CStr` | src/main/cpp/blaze_util_solaris.cc:102 | `string(buf)` reads a NUL-free prefix of the buffer that stops at the first NUL or the end |
| `CBuffers.CStrOfTerminated` | src/main/cpp/blaze_util_solaris.cc:199 | a buffer holding `t` then a NUL reads back as `t` |
| `CBuffers.CStrOfNulFree` | src/main/cpp/blaze_util_solaris.cc:102 | a NUL-free string reads back unchanged |
| `CBuffers.CStrStopsAtNul` | src/main/cpp/blaze_util_solaris.cc:101-102 | writing a NUL at index n hides everything from n on |
| `CBuffers.ReadCString` | src/main/cpp/blaze_util_solaris.cc:199 | scanning a terminated buffer yields exactly the characters before its first NUL |
| `CBuffers.WriteCString` | src/main/cpp/blaze_util_solaris.cc:198 | the buffer then starts with the string and a NUL; the rest of the buffer is unchanged |
| `CBuffers.Readlink` | src/main/cpp/blaze_util_solaris.cc:91 | -1 and an unchanged buffer on failure; otherwise copies min(target length, bufsiz) characters, returns that count, writes no terminator and leaves the rest of the buffer unchanged |
| `CBuffers.FormatULong` | src/main/cpp/blaze_util_solaris.cc:197-199 | `sprintf("%lu")` into the 128-character buffer, read back with `string(buffer)`, gives the decimal digits of the unsigned value (at most 20) |
| `ProcFs.RecordPathFromServerDir` | src/main/cpp/blaze_util_solaris.cc:225 | the record lies directly below `server_dir`: `server_dir`, then "/", then `server.starttime` |
| `ProcFs.RecordPathFromOutputBase` | src/main/cpp/blaze_util_solaris.cc:246 | the path the verifier reads is the record path of `server_dir` = `<output_base>/server`, so server and client name the same file |
| `Clock.CDiv` | src/main/cpp/blaze_util_solaris.cc:108 | C's truncating `/` agrees with floor division on non-negative operands |
| `Clock.Milliseconds` | src/main/cpp/blaze_util_solaris.cc:108-114 | the result is `tv_sec` in milliseconds plus the whole milliseconds in `tv_nsec`, truncated toward zero for either sign of `tv_nsec` |
| `Clock.MillisecondsBounds` | src/main/cpp/blaze_util_solaris.cc:105-115 | for 0 <= nsec < 10^9, `sec*1000 + nsec/1000000` is within [sec*1000, sec*1000+999] and equals the total nanoseconds divided by 10^6 |
| `Clock.MillisecondsMonotone` | src/main/cpp/blaze_util_illumos.cc:89-99 | a later normalized reading (lexicographically on sec, nsec) never gives fewer milliseconds |
| `Discovery.GetOutputRoot` | src/main/cpp/blaze_util_solaris.cc:57-78 | `<home>/.cache/bazel` if the home directory is non-empty; else `<pw_dir>/.cache/bazel` if the password lookup succeeds with a non-empty directory; else "/tmp" |
| `Discovery.PieceDir` | src/main/cpp/blaze_util_solaris.cc:144-146 | an empty PATH component becomes "." and any other is kept as it is |
| `Discovery.FirstUsableFindsFirst` | src/main/cpp/blaze_util_solaris.cc:143-155 | when component k gives the first executable regular file, the search returns that candidate |
| `Discovery.FirstUsableNone` | src/main/cpp/blaze_util_solaris.cc:156 | when no candidate is an executable regular file, the search returns "" |
| `Discovery.Which` | src/main/cpp/blaze_util_solaris.cc:136-157 | the loop returns "" for an empty PATH, and otherwise the first usable candidate of the PATH components, in order (or "") |
| `Discovery.GetSystemJavabase` | src/main/cpp/blaze_util_illumos.cc:135-157 | a non-empty JAVA_HOME verbatim; "" when javac is not found or realpath fails; otherwise dirname(dirname(resolved javac)) |
| `Solaris.StartTimeToken` | src/main/cpp/blaze_util_solaris.cc:196-199 | the token is a non-empty digit string of at most 20 characters |
| `Solaris.StartTimeTokenInjective` | src/main/cpp/blaze_util_solaris.cc:198 | two records give the same token exactly when their `tv_nsec` fields are equal |
| `Solaris.GetStartTime` | src/main/cpp/blaze_util_solaris.cc:184-207 | succeeds exactly when the psinfo record is readable; then yields the `tv_nsec` token; otherwise leaves `start_time` as it was |
| `Solaris.WriteSystemSpecificProcessIdentifier` | src/main/cpp/blaze_util_solaris.cc:215-231 | dies with LOCAL_ENVIRONMENTAL_ERROR and writes nothing if the probe fails; dies with LOCAL_ENVIRONMENTAL_ERROR if the write fails; else `server_dir/server.starttime` holds the token and no other file changes |
| `Solaris.VerifyServerProcess` | src/main/cpp/blaze_util_solaris.cc:236-251 | the result is the verdict `IsServerProcess`: false when the probe fails; otherwise true when the record is missing, else exactly when record equals token |
| `Solaris.DeadProcessNeverMatches` | src/main/cpp/blaze_util_solaris.cc:237-242 | a candidate whose probe fails is not our server, whatever the files hold |
| `Solaris.MissingRecordMatches` | src/main/cpp/blaze_util_solaris.cc:248-250 | a live candidate with no record file is accepted |
| `Solaris.RecordComparedWithToken` | src/main/cpp/blaze_util_solaris.cc:244-250 | a live candidate with a record is accepted if and only if the record equals its token |
| `Solaris.RecordThenVerify` | src/main/cpp/blaze_util_solaris.cc:215-251 | after the server records its token under `<output_base>/server`, a later probe yielding the same token is accepted |
| `Solaris.ReusedPidRejected` | src/main/cpp/blaze_util_solaris.cc:233-250 | whatever other files exist, a live process whose `tv_nsec` differs from that of the server whose token the record holds is rejected |
| `Solaris.SecondsAreIgnored` | src/main/cpp/blaze_util_solaris.cc:198 | a process with the recorded server's `tv_nsec` is accepted whatever its `tv_sec` |
| `Solaris.GetSelfPath` | src/main/cpp/blaze_util_solaris.cc:84-103 | "" when the process check fails; INTERNAL_ERROR when readlink fails or returns PATH_MAX-1 bytes; otherwise the link target, NUL-terminated in bounds |
| `Solaris.GetProcessCWD` | src/main/cpp/blaze_util_solaris.cc:121-130 | an empty path when readlink fails; otherwise the link target as read from the zero-filled buffer |
| `Illumos.StartTimeToken` | src/main/cpp/blaze_util_illumos.cc:172-176 | the token is a non-empty digit string of at most 20 characters |
| `Illumos.StartTimeTokenInjective` | src/main/cpp/blaze_util_illumos.cc:174 | two records give the same token exactly when their `tv_sec` fields are equal |
| `Illumos.GetStartTime` | src/main/cpp/blaze_util_illumos.cc:160-183 | succeeds exactly when the psinfo record is readable; then yields the `tv_sec` token; otherwise leaves `start_time` as it was |
| `Illumos.WriteSystemSpecificProcessIdentifier` | src/main/cpp/blaze_util_illumos.cc:191-207 | dies with LOCAL_ENVIRONMENTAL_ERROR and writes nothing if the probe fails; dies with LOCAL_ENVIRONMENTAL_ERROR if the write fails; else `server_dir/server.starttime` holds the token and no other file changes |
| `Illumos.VerifyServerProcess` | src/main/cpp/blaze_util_illumos.cc:212-225 | the result is the verdict `IsServerProcess`: false when the probe fails; otherwise exactly whether the recorded string (or what the failed read left) equals the token |
| `Illumos.DeadProcessNeverMatches` | src/main/cpp/blaze_util_illumos.cc:213-218 | a candidate whose probe fails is not our server |
| `Illumos.RecordedStringComparedWithToken` | src/main/cpp/blaze_util_illumos.cc:220-224 | a live candidate is accepted if and only if the recorded string equals its token; whether the file was present is not consulted |
| `Illumos.MissingRecordRejected` | src/main/cpp/blaze_util_illumos.cc:220-224 | with no record file, and a failed read leaving the string empty, the candidate is rejected, because a token is never empty |
| `Illumos.RecordThenVerify` | src/main/cpp/blaze_util_illumos.cc:191-225 | after the server records its token under `<output_base>/server`, a later probe yielding the same token is accepted |
| `Illumos.ReusedPidRejected` | src/main/cpp/blaze_util_illumos.cc:209-224 | whatever other files exist and whatever a failed read leaves, a live process whose `tv_sec` differs from that of the server whose token the record holds is rejected |
| `Illumos.GetProcessCWD` | src/main/cpp/blaze_util_illumos.cc:105-129 | INTERNAL_ERROR when the psinfo lookup fails or readlink returns <= 0; otherwise the target of `/proc/<pr_pid>/path/cwd`, cut to PATH_MAX-1 characters and NUL-terminated in bounds |
| `Divergence.MissingRecordPoliciesDisagree` | src/main/cpp/blaze_util_solaris.cc:250 | for a live candidate without a record, Solaris accepts and illumos (empty string left by the read) rejects |
| `Divergence.TokensDifferAcrossPorts` | src/main/cpp/blaze_util_illumos.cc:174 | the two ports' tokens for one process differ whenever its `tv_sec` and `tv_nsec` differ |
| `Divergence.SolarisRecordRejectedByIllumos` | src/main/cpp/blaze_util_illumos.cc:224 | a record in the Solaris format is rejected by the illumos verifier for the process that wrote it, unless the process's `tv_sec` equals its `tv_nsec` |
| `FileSystemModule.DigestDefault.SetDefault` | src/main/java/com/google/devtools/build/lib/runtime/BazelFileSystemModule.java:48 | fails exactly when a default is already set, and then leaves it; otherwise installs the given hash function |
| `FileSystemModule.GlobalInit` | src/main/java/com/google/devtools/build/lib/runtime/BazelFileSystemModule.java:40-62 | the outcome and the new default are those of `GlobalInitEffect` on the old default |
| `FileSystemModule.GetProperty` | src/main/java/com/google/devtools/build/lib/runtime/BazelFileSystemModule.java:50 | `System.getProperty(key, def)` gives the property's value when it is set, else `def` |
| `FileSystemModule.CommandLineHashWins` | src/main/java/com/google/devtools/build/lib/runtime/BazelFileSystemModule.java:45-48 | a command-line digest function is installed in an unset default; the JVM properties do not affect the outcome |
| `FileSystemModule.PropertyHashInstalled` | src/main/java/com/google/devtools/build/lib/runtime/BazelFileSystemModule.java:50-57 | otherwise the conversion of `bazel.DigestFunction` ("SHA256" when unset) is installed in an unset default |
| `FileSystemModule.ConversionFailureLeavesDefault` | src/main/java/com/google/devtools/build/lib/runtime/BazelFileSystemModule.java:52-56 | a failed conversion gives COMMAND_LINE_ERROR and leaves the default unchanged |
| `FileSystemModule.DefaultSetOnce` | src/main/java/com/google/devtools/build/lib/runtime/BazelFileSystemModule.java:59-61 | with a default already set, nothing changes; the result is BLAZE_INTERNAL_ERROR unless the conversion failed first |
| `FileSystemModule.GetFileSystem` | src/main/java/com/google/devtools/build/lib/runtime/BazelFileSystemModule.java:64-88 | whatever the options and exec root: DefaultHashFunctionNotSet exactly when no default is set, otherwise a JavaIoFileSystem over the default |
| `FileSystemModule.FileSystemAfterGlobalInit` | src/main/java/com/google/devtools/build/lib/runtime/BazelFileSystemModule.java:40-88 | after a globalInit that passed, getFileSystem succeeds with a JavaIoFileSystem over the hash function globalInit chose |

The illumos copies of `GetOutputRoot`, `GetSystemJavabase` and the
millisecond clocks are textually the same as the Solaris ones. They are at
src/main/cpp/blaze_util_illumos.cc lines 58-79, 135-157 and 89-99, and each is
modelled by the one member above. illumos's `GetSystemJavabase` calls a
`Which` that its file does not define. The model uses the Solaris one.

## Left out

- Signal-handler safety of `GetStartTime`: reentrancy and the absence of allocation cannot be expressed in this model; the buffered `fopen`/`fread`/`fclose` calls are folded into one psinfo lookup.
- Clock.MillisecondsBounds: computes in unbounded integers; the 64-bit overflow of `tv_sec * 1000LL` and the conversion to `uint64_t` are not modelled, and the clock reading itself is an input.
- Solaris.GetProcessCWD: requires the link target to be shorter than PATH_MAX, which the operating system guarantees for symbolic links; a longer one would leave the zero-filled buffer without a terminator.
- Illumos.VerifyServerProcess: what `ReadFile` leaves in its output string when it fails is not visible; it is the `residue` parameter, and the missing-record corollary assumes it stays empty.
- The conversion of a pid to a string (`ToString`), the `snprintf` of `/proc` paths and `blaze_util::Path` construction: paths are plain strings and `GetRelative` joins with "/".
- `blaze_util::Split`, `JoinPath`, `Dirname`, `GetEnv`, `GetHomeDir`, `ReadFile`, `WriteFile` (util/ is not part of this model): parameters or the `FileSystem` class, as listed above.
- illumos `GetSelfPath` returns `getexecname()`, an operating-system call with no logic of its own.
- `IsSharedLibrary`: a one-line delegation to `blaze_util::ends_with`, which is not part of this model.
- No-op stubs and constants: `WarnFilesystemType`, `SetScheduling`, `ExcludePathFromBackup`, `ConfigureDaemonProcess` (returns 0) and `GetExplicitSystemLimit` (returns -1).
- `BAZEL_LOG` output and the text of `BAZEL_DIE` messages; numeric exit-code values (exit_code.h is not part of this model).
- ProcFs.FileSystem.WriteFile: a failed write is taken to leave every file unchanged, which `blaze_util::WriteFile` (not part of this model) is assumed to do. The `files` map holds only the files `ReadFile` can read, so a record that exists but cannot be read counts as missing, and Solaris accepts it.
- Decimal.AsULong: assumes LP64, a 64-bit `long` (the `Long` type), as on 64-bit Solaris and illumos; on a 32-bit build `%lu` would wrap by 2^32 instead of 2^64.
- FileSystemModule.GetFileSystem: the JavaIoFileSystem class is not part of this model; that it fails exactly when no default digest function is set is read from the `throws DefaultHashFunctionNotSetException` at line 67, and its internals are left out.
- The internals of `DigestHashFunction`, `DigestFunctionConverter` (a partial function parameter here) and the file system classes; the exception causes wrapped in `AbruptExitException`.
- The operating-system-dependent file system choice in `getFileSystem` is commented out in the source and is not modelled.
