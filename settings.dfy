/** The runtime's own daemon configuration: defaulting of the log settings,
    the mapping of level names to logger levels, and loading with an absent file. */
module Settings {
  import opened Wrappers

  const ConfigFilePath: string := "/etc/iluvatarcorex/ix-container-runtime/config.yaml"
  const DefaultLogPath: string := "/var/log/iluvatarcorex/ix-container-toolkit/ix-container-runtime.log"

  const LevelInfo: string := "info"
  const LevelDebug: string := "debug"
  const LevelTrace: string := "trace"
  const LevelWarning: string := "warning"
  const LevelError: string := "error"
  const LevelFatal: string := "fatal"
  const LevelPanic: string := "Panic"

  /** The logger's levels. */
  datatype Level = PanicLevel | FatalLevel | ErrorLevel | WarnLevel | InfoLevel | DebugLevel | TraceLevel

  /** The configuration name of each level. */
  function LevelName(l: Level): string
  {
    match l
    case PanicLevel => LevelPanic
    case FatalLevel => LevelFatal
    case ErrorLevel => LevelError
    case WarnLevel => LevelWarning
    case InfoLevel => LevelInfo
    case DebugLevel => LevelDebug
    case TraceLevel => LevelTrace
  }

  predicate IsLevelName(s: string)
  {
    s == LevelInfo || s == LevelDebug || s == LevelTrace || s == LevelWarning
    || s == LevelError || s == LevelFatal || s == LevelPanic
  }

  /** The level switch of `update`: names match exactly, anything else is Info. */
  function LevelOf(s: string): (l: Level)
    ensures !IsLevelName(s) ==> l == InfoLevel
    ensures IsLevelName(s) ==> LevelName(l) == s
  {
    if s == LevelInfo then InfoLevel
    else if s == LevelDebug then DebugLevel
    else if s == LevelTrace then TraceLevel
    else if s == LevelWarning then WarnLevel
    else if s == LevelError then ErrorLevel
    else if s == LevelFatal then FatalLevel
    else if s == LevelPanic then PanicLevel
    else InfoLevel
  }

  /** Every level is reached from its own name, and only from it. */
  lemma LevelNameRoundTrip(l: Level, s: string)
    ensures LevelOf(LevelName(l)) == l
    ensures IsLevelName(s) && LevelOf(s) == l ==> s == LevelName(l)
  {
  }

  /** The match is case-sensitive: only the capitalised spelling selects Panic. */
  lemma PanicIsCaseSensitive()
    ensures LevelOf("Panic") == PanicLevel
    ensures LevelOf("panic") == InfoLevel
  {
  }

  /** The fields of the YAML document. */
  datatype ConfigValues = ConfigValues(
    loglevel: string, logPath: string, libraryPath: string, defaultSdk: string, sdkSocketPath: string)

  const ZeroValues: ConfigValues := ConfigValues("", "", "", "", "")

  /** The defaults that `update` writes into the two log fields. */
  function Defaulted(v: ConfigValues): (r: ConfigValues)
    ensures r.logPath == (if v.logPath == "" then DefaultLogPath else v.logPath)
    ensures r.loglevel == (if v.loglevel == "" then LevelInfo else v.loglevel)
    ensures r.libraryPath == v.libraryPath && r.defaultSdk == v.defaultSdk && r.sdkSocketPath == v.sdkSocketPath
  {
    v.(logPath := if v.logPath == "" then DefaultLogPath else v.logPath,
       loglevel := if v.loglevel == "" then LevelInfo else v.loglevel)
  }

  /** Defaulting is idempotent and never leaves a log field empty. */
  lemma DefaultedIdempotent(v: ConfigValues)
    ensures Defaulted(Defaulted(v)) == Defaulted(v)
    ensures Defaulted(v).logPath != "" && Defaulted(v).loglevel != ""
  {
  }

  /** An empty configuration logs at Info to the default log file. */
  lemma ZeroConfigDefaults()
    ensures Defaulted(ZeroValues).logPath == DefaultLogPath
    ensures LevelOf(Defaulted(ZeroValues).loglevel) == InfoLevel
  {
  }

  /** The daemon configuration record. */
  class Config {
    var loglevel: string
    var logPath: string
    var libraryPath: string
    var defaultSdk: string
    var sdkSocketPath: string

    function Values(): ConfigValues
      reads this
    {
      ConfigValues(loglevel, logPath, libraryPath, defaultSdk, sdkSocketPath)
    }

    constructor (v: ConfigValues)
      ensures Values() == v
    {
      loglevel, logPath, libraryPath, defaultSdk, sdkSocketPath :=
        v.loglevel, v.logPath, v.libraryPath, v.defaultSdk, v.sdkSocketPath;
    }

    /** `update`: fill in the log defaults, pick the logger level, and open the
        log file (the oracle `openLog` says whether that open succeeds). */
    method Update(openLog: string -> bool) returns (level: Level, err: Option<string>)
      modifies this
      ensures Values() == Defaulted(old(Values()))
      ensures level == LevelOf(loglevel)
      ensures err.None? <==> openLog(logPath)
    {
      if logPath == "" {
        logPath := DefaultLogPath;
      }
      if loglevel == "" {
        loglevel := LevelInfo;
      }
      level := LevelOf(loglevel);
      if !openLog(logPath) {
        return level, Some("error opening config file: " + logPath);
      }
      return level, None;
    }
  }

  /** What opening the configuration file gives. */
  datatype OpenOutcome = NotExist | OpenFailed(msg: string) | Opened(contents: string)

  /** The values `LoadConfig` starts from: the zero record for an absent file,
      an error for any other open failure, otherwise what the parser returns. */
  function Loaded(open: OpenOutcome, parse: string -> Result<ConfigValues>): (r: Result<ConfigValues>)
    ensures open.NotExist? ==> r == Ok(ZeroValues)
    ensures open.OpenFailed? ==> r.Err?
    ensures open.Opened? ==> r == parse(open.contents)
  {
    match open
    case NotExist => Ok(ZeroValues)
    case OpenFailed(msg) => Err("error opening config file: " + msg)
    case Opened(contents) => parse(contents)
  }

  /** `LoadConfig`: a configuration is returned exactly when the file was absent
      or parsed and the log file could be opened; it then holds the defaulted values. */
  method LoadConfig(open: OpenOutcome, parse: string -> Result<ConfigValues>, openLog: string -> bool)
    returns (cfg: Config?, level: Level, err: Option<string>)
    ensures cfg != null <==> err.None?
    ensures err.None? <==> Loaded(open, parse).Ok? && openLog(Defaulted(Loaded(open, parse).value).logPath)
    ensures cfg != null ==> fresh(cfg) && cfg.Values() == Defaulted(Loaded(open, parse).value)
  {
    var values := Loaded(open, parse);
    level := InfoLevel;
    if values.Err? {
      return null, level, Some(values.msg);
    }
    var c := new Config(values.value);
    var e;
    level, e := c.Update(openLog);
    if e.Some? {
      return null, level, e;
    }
    return c, level, None;
  }
}
