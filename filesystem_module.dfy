/**
 * BazelFileSystemModule: at global initialisation it installs the process-wide
 * default digest hash function, taken from the startup options or else from
 * the JVM property `bazel.DigestFunction` (SHA256 when unset); it provides
 * a JavaIoFileSystem, which cannot be built before that default is set.
 */
module FileSystemModule {
  import opened Outcomes

  /** A digest hash function, known by its name; its internals are not part of this model. */
  datatype DigestHashFunction = DigestHashFunction(name: string)

  /** The startup option `--digest_function`, None when it was not given. */
  datatype StartupOptions = StartupOptions(digestHashFunction: Option<DigestHashFunction>)

  /** The exit codes an AbruptExitException from globalInit carries. */
  datatype JavaExitCode = COMMAND_LINE_ERROR | BLAZE_INTERNAL_ERROR

  /** The file system getFileSystem provides: a JavaIoFileSystem hashing with the default digest function. */
  datatype ModuleFileSystem = JavaIoFileSystem(digestHashFunction: DigestHashFunction)

  /** DefaultHashFunctionNotSetException, which getFileSystem declares. */
  datatype FileSystemError = DefaultHashFunctionNotSet

  const DIGEST_PROPERTY: string := "bazel.DigestFunction"
  const DEFAULT_DIGEST_NAME: string := "SHA256"

  /** `System.getProperty(key, def)` over the JVM's system properties. */
  function GetProperty(properties: map<string, string>, key: string, def: string): (v: string)
    ensures key in properties ==> v == properties[key]
    ensures key !in properties ==> v == def
  {
    if key in properties then properties[key] else def
  }

  /** The process-wide default of DigestHashFunction: unset at first, set at most once. */
  class DigestDefault {
    var value: Option<DigestHashFunction>

    constructor ()
      ensures value == None
    {
      value := None;
    }

    /** `DigestHashFunction.setDefault`: fails (DefaultAlreadySetException) once a default is set. */
    method SetDefault(hash: DigestHashFunction) returns (alreadySet: bool)
      modifies this
      ensures alreadySet <==> old(value).Some?
      ensures value == if alreadySet then old(value) else Some(hash)
    {
      alreadySet := value.Some?;
      if !alreadySet {
        value := Some(hash);
      }
    }
  }

  /**
   * The hash function globalInit installs: the command-line one when given, else
   * the conversion of the JVM property, or COMMAND_LINE_ERROR when that fails.
   * `convert` is DigestFunctionConverter.convert, None for OptionsParsingException.
   */
  function ChosenHashFunction(options: StartupOptions, properties: map<string, string>,
                              convert: string -> Option<DigestHashFunction>): Result<DigestHashFunction, JavaExitCode>
  {
    match options.digestHashFunction
    case Some(hash) => Success(hash)
    case None =>
      match convert(GetProperty(properties, DIGEST_PROPERTY, DEFAULT_DIGEST_NAME))
      case None => Failure(COMMAND_LINE_ERROR)
      case Some(hash) => Success(hash)
  }

  /** What globalInit reports and what the default is afterwards, given the default before. */
  function GlobalInitEffect(current: Option<DigestHashFunction>, options: StartupOptions,
                            properties: map<string, string>, convert: string -> Option<DigestHashFunction>)
    : (Outcome<JavaExitCode>, Option<DigestHashFunction>)
  {
    match ChosenHashFunction(options, properties, convert)
    case Failure(code) => (Fail(code), current)
    case Success(hash) => if current.Some? then (Fail(BLAZE_INTERNAL_ERROR), current) else (Pass, Some(hash))
  }

  /**
   * globalInit: install the chosen hash function as the default, mapping a
   * failed conversion to COMMAND_LINE_ERROR and an already-set default to
   * BLAZE_INTERNAL_ERROR. The startup options are non-null (Preconditions.checkNotNull).
   */
  method GlobalInit(digestDefault: DigestDefault, options: StartupOptions, properties: map<string, string>,
                    convert: string -> Option<DigestHashFunction>) returns (r: Outcome<JavaExitCode>)
    modifies digestDefault
    ensures (r, digestDefault.value) == GlobalInitEffect(old(digestDefault.value), options, properties, convert)
  {
    var commandLineHashFunction := options.digestHashFunction;
    var alreadySet: bool;
    if commandLineHashFunction.Some? {
      alreadySet := digestDefault.SetDefault(commandLineHashFunction.value);
    } else {
      var value := GetProperty(properties, DIGEST_PROPERTY, DEFAULT_DIGEST_NAME);
      var jvmPropertyHash := convert(value);
      if jvmPropertyHash.None? {
        return Fail(COMMAND_LINE_ERROR);
      }
      alreadySet := digestDefault.SetDefault(jvmPropertyHash.value);
    }
    if alreadySet {
      return Fail(BLAZE_INTERNAL_ERROR);
    }
    return Pass;
  }

  /** A command-line hash function is the one installed; the JVM property is not consulted. */
  lemma CommandLineHashWins(options: StartupOptions, properties: map<string, string>, other: map<string, string>,
                            convert: string -> Option<DigestHashFunction>)
    requires options.digestHashFunction.Some?
    ensures GlobalInitEffect(None, options, properties, convert) == (Pass, options.digestHashFunction)
    ensures forall current :: GlobalInitEffect(current, options, properties, convert)
                              == GlobalInitEffect(current, options, other, convert)
  {
  }

  /**
   * Without a command-line hash function, the conversion of the property (of
   * "SHA256" when it is unset) is installed in an unset default.
   */
  lemma PropertyHashInstalled(options: StartupOptions, properties: map<string, string>,
                              convert: string -> Option<DigestHashFunction>, hash: DigestHashFunction)
    requires options.digestHashFunction.None?
    requires convert(GetProperty(properties, DIGEST_PROPERTY, DEFAULT_DIGEST_NAME)) == Some(hash)
    ensures GlobalInitEffect(None, options, properties, convert) == (Pass, Some(hash))
  {
  }

  /** A failed conversion exits with COMMAND_LINE_ERROR and leaves the default as it was. */
  lemma ConversionFailureLeavesDefault(current: Option<DigestHashFunction>, options: StartupOptions,
                                       properties: map<string, string>, convert: string -> Option<DigestHashFunction>)
    requires options.digestHashFunction.None?
    requires convert(GetProperty(properties, DIGEST_PROPERTY, DEFAULT_DIGEST_NAME)).None?
    ensures GlobalInitEffect(current, options, properties, convert) == (Fail(COMMAND_LINE_ERROR), current)
  {
  }

  /**
   * The default is set at most once: with a default already set, globalInit
   * changes nothing and, unless the conversion failed first, exits with
   * BLAZE_INTERNAL_ERROR.
   */
  lemma DefaultSetOnce(current: Option<DigestHashFunction>, options: StartupOptions,
                       properties: map<string, string>, convert: string -> Option<DigestHashFunction>)
    requires current.Some?
    ensures GlobalInitEffect(current, options, properties, convert).1 == current
    ensures ChosenHashFunction(options, properties, convert).Success?
            ==> GlobalInitEffect(current, options, properties, convert).0 == Fail(BLAZE_INTERNAL_ERROR)
  {
  }

  /**
   * getFileSystem: a JavaIoFileSystem over the default digest hash function,
   * whatever the options and exec root; DefaultHashFunctionNotSet while no
   * default is set. `current` is the default at the time of the call.
   */
  function GetFileSystem(current: Option<DigestHashFunction>, startupOptions: StartupOptions,
                         realExecRootBase: string): (r: Result<ModuleFileSystem, FileSystemError>)
    ensures current.None? <==> r == Failure(DefaultHashFunctionNotSet)
    ensures current.Some? ==> r == Success(JavaIoFileSystem(current.value))
  {
    match current
    case None => Failure(DefaultHashFunctionNotSet)
    case Some(hash) => Success(JavaIoFileSystem(hash))
  }

  /**
   * Once globalInit has passed, getFileSystem succeeds, and its file system
   * hashes with the function globalInit chose.
   */
  lemma FileSystemAfterGlobalInit(current: Option<DigestHashFunction>, options: StartupOptions,
                                  properties: map<string, string>, convert: string -> Option<DigestHashFunction>,
                                  realExecRootBase: string)
    requires GlobalInitEffect(current, options, properties, convert).0 == Pass
    ensures ChosenHashFunction(options, properties, convert).Success?
    ensures GetFileSystem(GlobalInitEffect(current, options, properties, convert).1, options, realExecRootBase)
            == Success(JavaIoFileSystem(ChosenHashFunction(options, properties, convert).value))
  {
  }
}
