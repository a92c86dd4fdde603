/** The `runtime configure` command: which engine configuration file to edit,
    where to write it, and the dispatch that loads the engine configuration,
    registers the runtime, saves the result and writes the daemon's own
    default configuration. The engine back ends are an oracle: the error, if
    any, that each step reports. */
module Configure {
  import opened Wrappers

  const DefaultRuntimeFlag: string := "docker"
  const DefaultContainerdConfigFilePath: string := "/etc/containerd/config.toml"
  const DefaultCrioConfigFilePath: string := "/etc/crio/crio.conf"
  const DefaultDockerConfigFilePath: string := "/etc/docker/daemon.json"
  const DefaultConfigFilePath: string := "/etc/iluvatarcorex/ix-container-runtime/config.yaml"
  const DefaultConfigFileContent: string :=
    "librarypath: /usr/local/corex/lib64/libixml.so\nsdksocketpath: /run/ix-sdk-manager/ix-sdk.sock"

  /** The command's settings. No flag sets `configFilePath`. */
  datatype Options = Options(runtime: string, configFilePath: string, setAsDefault: bool, dryRun: bool, path: string)

  /** The settings before any flag is given: the `docker` runtime, and the
      engine package's default runtime path (not part of this model), given
      here as `defaultRuntimePath`. */
  function DefaultOptions(defaultRuntimePath: string): (c: Options)
    ensures c.runtime == DefaultRuntimeFlag && c.path == defaultRuntimePath
    ensures c.configFilePath == "" && !c.setAsDefault && !c.dryRun
  {
    Options(DefaultRuntimeFlag, "", false, false, defaultRuntimePath)
  }

  /** `resolveConfigFilePath`: a given path wins; otherwise the engine's
      default file, and no path for an engine without one. */
  function ResolveConfigFilePath(c: Options): (r: string)
    ensures c.configFilePath != "" ==> r == c.configFilePath
    ensures r == "" <==> c.configFilePath == "" && c.runtime != "containerd" && c.runtime != "crio" && c.runtime != "docker"
  {
    if c.configFilePath != "" then c.configFilePath
    else if c.runtime == "containerd" then DefaultContainerdConfigFilePath
    else if c.runtime == "crio" then DefaultCrioConfigFilePath
    else if c.runtime == "docker" then DefaultDockerConfigFilePath
    else ""
  }

  /** Without a given path each known engine has its own default file. */
  lemma ResolveCases(c: Options)
    ensures c.configFilePath == "" && c.runtime == "containerd" ==> ResolveConfigFilePath(c) == "/etc/containerd/config.toml"
    ensures c.configFilePath == "" && c.runtime == "crio" ==> ResolveConfigFilePath(c) == "/etc/crio/crio.conf"
    ensures c.configFilePath == "" && c.runtime == "docker" ==> ResolveConfigFilePath(c) == "/etc/docker/daemon.json"
  {
  }

  /** `getOuputConfigPath`: nothing is written on a dry run. */
  function OutputConfigPath(c: Options): (r: string)
    ensures c.dryRun ==> r == ""
    ensures !c.dryRun ==> r == ResolveConfigFilePath(c)
  {
    if c.dryRun then "" else ResolveConfigFilePath(c)
  }

  /** The output path is empty exactly on a dry run or when no path resolves. */
  lemma OutputPathEmptyIff(c: Options)
    ensures OutputConfigPath(c) == "" <==> c.dryRun || ResolveConfigFilePath(c) == ""
  {
  }

  /** The engine steps `ConfigureRuntime` takes. */
  datatype EngineCall =
    | Load(runtime: string, path: string)
    | AddRuntime(name: string, path: string, setAsDefault: bool)
    | Save(path: string)
    | WriteDefaults(path: string, content: string)

  /** What each engine step reports: the error of loading a runtime's
      configuration from a path, of registering the runtime, of saving and of
      writing the defaults, `None` for success. */
  datatype Engine = Engine(loadErr: (string, string) -> Option<string>, addErr: Option<string>,
                           saveErr: Option<string>, writeErr: Option<string>)

  /** The steps taken and the error, if any. */
  datatype ConfigureResult = ConfigureResult(calls: seq<EngineCall>, err: Option<string>)

  /** Only containerd and docker configurations can be edited. */
  predicate Supported(runtime: string)
  {
    runtime == "containerd" || runtime == "docker"
  }

  /** Every step of a run that goes through, in order. */
  function Steps(c: Options, runtimeName: string): (s: seq<EngineCall>)
    ensures |s| == 4 && s[0].Load? && s[1].AddRuntime? && s[2].Save? && s[3].WriteDefaults?
  {
    [Load(c.runtime, ResolveConfigFilePath(c)),
     AddRuntime(runtimeName, c.path, c.setAsDefault),
     Save(OutputConfigPath(c)),
     WriteDefaults(DefaultConfigFilePath, DefaultConfigFileContent)]
  }

  /** `ConfigureRuntime`, registering the runtime under `runtimeName` (the
      engine package's runtime name). The steps taken are the first steps of
      the full run, all of them when it succeeds. */
  function ConfigureRuntime(c: Options, e: Engine, runtimeName: string): (r: ConfigureResult)
    ensures r.calls <= Steps(c, runtimeName)
    ensures r.err.None? ==> r.calls == Steps(c, runtimeName)
  {
    var configFilePath := ResolveConfigFilePath(c);
    var loadPrefix := "unable to load config for runtime " + c.runtime + ": ";
    if !Supported(c.runtime) then
      ConfigureResult([], Some(loadPrefix + "unrecognized runtime '" + c.runtime + "'"))
    else
      var load := [Load(c.runtime, configFilePath)];
      var loadErr := e.loadErr(c.runtime, configFilePath);
      if loadErr.Some? then ConfigureResult(load, Some(loadPrefix + loadErr.value))
      else
        var add := load + [AddRuntime(runtimeName, c.path, c.setAsDefault)];
        if e.addErr.Some? then ConfigureResult(add, Some("unable to update config: " + e.addErr.value))
        else
          var save := add + [Save(OutputConfigPath(c))];
          if e.saveErr.Some? then ConfigureResult(save, Some("unable to flush config: " + e.saveErr.value))
          else
            var write := save + [WriteDefaults(DefaultConfigFilePath, DefaultConfigFileContent)];
            if e.writeErr.Some? then ConfigureResult(write, Some("unable to flush config: " + DefaultConfigFilePath))
            else ConfigureResult(write, None)
  }

  /** A runtime other than containerd or docker is an error before any engine step. */
  lemma UnsupportedRuntimeRejected(c: Options, e: Engine, runtimeName: string)
    requires !Supported(c.runtime)
    ensures ConfigureRuntime(c, e, runtimeName).err.Some?
    ensures ConfigureRuntime(c, e, runtimeName).calls == []
  {
  }

  /** CRI-O has a default configuration file but cannot be configured. */
  lemma CrioRejected(c: Options, e: Engine, runtimeName: string)
    requires c.runtime == "crio" && c.configFilePath == ""
    ensures ResolveConfigFilePath(c) == "/etc/crio/crio.conf"
    ensures ConfigureRuntime(c, e, runtimeName) == ConfigureResult([], ConfigureRuntime(c, e, runtimeName).err)
    ensures ConfigureRuntime(c, e, runtimeName).err.Some?
  {
  }

  /** The command succeeds exactly when the runtime is supported and every
      engine step succeeds; a supported runtime is loaded first, from the
      resolved path, and each save follows the registration. */
  lemma ConfigureOutcome(c: Options, e: Engine, runtimeName: string)
    ensures var r := ConfigureRuntime(c, e, runtimeName);
      r.err.None? <==>
        (Supported(c.runtime) && e.loadErr(c.runtime, ResolveConfigFilePath(c)).None? &&
         e.addErr.None? && e.saveErr.None? && e.writeErr.None?)
    ensures var r := ConfigureRuntime(c, e, runtimeName);
      Supported(c.runtime) ==> |r.calls| > 0 && r.calls[0] == Load(c.runtime, ResolveConfigFilePath(c))
    ensures var r := ConfigureRuntime(c, e, runtimeName);
      forall i :: 0 <= i < |r.calls| && r.calls[i].Save? ==> i > 0 && r.calls[i - 1].AddRuntime?
  {
  }

  /** A failure stops at the step that failed, which is the last step taken,
      and the message names that step and carries the engine's own error
      (the defaults file's path for the last step). */
  lemma ConfigureErrorNamesStep(c: Options, e: Engine, runtimeName: string)
    ensures var r := ConfigureRuntime(c, e, runtimeName);
      r.err.Some? && |r.calls| > 0 ==>
        var last := r.calls[|r.calls| - 1];
        && (last.Load? ==>
              (e.loadErr(c.runtime, ResolveConfigFilePath(c)).Some? &&
               r.err.value == "unable to load config for runtime " + c.runtime + ": " +
                              e.loadErr(c.runtime, ResolveConfigFilePath(c)).value))
        && (last.AddRuntime? ==> e.addErr.Some? && r.err.value == "unable to update config: " + e.addErr.value)
        && (last.Save? ==> e.saveErr.Some? && r.err.value == "unable to flush config: " + e.saveErr.value)
        && (last.WriteDefaults? ==> e.writeErr.Some? && r.err.value == "unable to flush config: " + DefaultConfigFilePath)
    ensures var r := ConfigureRuntime(c, e, runtimeName);
      r.err.Some? && |r.calls| == 0 ==>
        !Supported(c.runtime) &&
        r.err.value == "unable to load config for runtime " + c.runtime + ": unrecognized runtime '" + c.runtime + "'"
  {
  }

  /** With no flags given, the docker configuration at its default path is edited. */
  lemma DefaultsEditDocker(defaultRuntimePath: string, e: Engine, runtimeName: string)
    ensures ResolveConfigFilePath(DefaultOptions(defaultRuntimePath)) == "/etc/docker/daemon.json"
    ensures var r := ConfigureRuntime(DefaultOptions(defaultRuntimePath), e, runtimeName);
      r.calls[0] == Load("docker", "/etc/docker/daemon.json")
  {
  }
}
