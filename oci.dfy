/** Runtime interception: choosing the low-level runtime binary, and the
    wrapper that, for a `create` invocation, loads the bundle's OCI
    specification, applies the modifier, writes it back and only then hands the
    unchanged argument vector to the low-level runtime. The specification file
    and the runtime are collaborators whose replies are fixed in advance; what
    they are asked, and in what order, is recorded in one shared log. */
module Oci {
  import opened Wrappers
  import Lookup
  import Seqs

  // ---------------------------------------------------------------------------
  // Choosing the low-level runtime

  /** The locator `findRuntime` builds: executables under `/`, searched in
      `paths` (what `GetPaths("/")` returns, which is not part of this model). */
  function RuntimeLocator(fs: Lookup.Fs, paths: seq<string>): (l: Lookup.FileLocator)
    ensures l.config.filter == Some(Lookup.AssertExecutable) && l.config.count == 1
  {
    Lookup.Build(fs.join, Lookup.BuilderConfig("/", paths, Some(Lookup.AssertExecutable), 1, false))
  }

  /** Whether looking `candidate` up finds something. */
  predicate Found(fs: Lookup.Fs, paths: seq<string>, candidate: string)
  {
    var t := Lookup.LocateSpec(fs, RuntimeLocator(fs, paths), candidate);
    t.Ok? && |t.value| > 0
  }

  /** `findRuntime`: an empty candidate list is an error; otherwise the first
      target of the first candidate, in list order, that is found. */
  function FindRuntime(fs: Lookup.Fs, paths: seq<string>, candidates: seq<string>): (r: Result<string>)
    ensures |candidates| == 0 ==> r.Err?
    ensures r.Ok? ==> exists j :: 0 <= j < |candidates| && Found(fs, paths, candidates[j]) &&
                                 r.value == Lookup.LocateSpec(fs, RuntimeLocator(fs, paths), candidates[j]).value[0]
  {
    if |candidates| == 0 then Err("at least one runtime candidate must be specified")
    else match Seqs.FirstIndex(c => Found(fs, paths, c), candidates, 0)
      case None => Err("no runtime binary found from candidate list")
      case Some(j) => Ok(Lookup.LocateSpec(fs, RuntimeLocator(fs, paths), candidates[j]).value[0])
  }

  /** The runtime chosen is the first target of the first candidate found:
      none before it is found, and it is an executable. */
  lemma FindRuntimeFirstMatch(fs: Lookup.Fs, paths: seq<string>, candidates: seq<string>, j: nat)
    requires j < |candidates| && Found(fs, paths, candidates[j])
    requires forall i :: 0 <= i < j ==> !Found(fs, paths, candidates[i])
    ensures FindRuntime(fs, paths, candidates) == Ok(Lookup.LocateSpec(fs, RuntimeLocator(fs, paths), candidates[j]).value[0])
    ensures Lookup.Accepts(fs, Lookup.AssertExecutable, FindRuntime(fs, paths, candidates).value)
  {
    Seqs.FirstIndexIs(c => Found(fs, paths, c), candidates, 0, j);
    Lookup.ExecutableLocatesAtMostOne(fs, "/", paths, candidates[j]);
  }

  /** With no candidate found, or no candidates at all, the result is an error. */
  lemma FindRuntimeNone(fs: Lookup.Fs, paths: seq<string>, candidates: seq<string>)
    requires forall i :: 0 <= i < |candidates| ==> !Found(fs, paths, candidates[i])
    ensures FindRuntime(fs, paths, candidates).Err?
  {
    if |candidates| > 0 {
      Seqs.FirstIndexNone(c => Found(fs, paths, c), candidates, 0);
    }
  }

  /** The candidates after the first one found are never looked up: replacing
      them changes nothing. */
  lemma FindRuntimeIgnoresLater(fs: Lookup.Fs, paths: seq<string>, candidates: seq<string>, j: nat, later: seq<string>)
    requires j < |candidates| && Found(fs, paths, candidates[j])
    requires forall i :: 0 <= i < j ==> !Found(fs, paths, candidates[i])
    ensures FindRuntime(fs, paths, candidates[..j + 1] + later) == FindRuntime(fs, paths, candidates)
  {
    var cs := candidates[..j + 1] + later;
    assert forall i :: 0 <= i <= j ==> cs[i] == candidates[i];
    FindRuntimeFirstMatch(fs, paths, candidates, j);
    FindRuntimeFirstMatch(fs, paths, cs, j);
  }

  /** `NewLowLevelRuntime`: a lookup error is passed on and no runtime is
      built; otherwise the runtime for the chosen path (`NewRuntimeForPath`,
      which is not part of this model, is the parameter `newForPath`). */
  function NewLowLevelRuntime<R>(fs: Lookup.Fs, paths: seq<string>, candidates: seq<string>,
                                 newForPath: string -> Result<R>): (r: Result<R>)
    ensures |candidates| == 0 ==> r.Err?
    ensures r.Ok? ==> FindRuntime(fs, paths, candidates).Ok?
  {
    match FindRuntime(fs, paths, candidates)
    case Err(msg) => Err("error locating runtime: " + msg)
    case Ok(path) => newForPath(path)
  }

  /** A runtime is built only for the chosen path, and only when one was chosen. */
  lemma NewLowLevelRuntimeUsesChoice<R>(fs: Lookup.Fs, paths: seq<string>, candidates: seq<string>,
                                        newForPath: string -> Result<R>)
    ensures FindRuntime(fs, paths, candidates).Err? ==> NewLowLevelRuntime(fs, paths, candidates, newForPath).Err?
    ensures FindRuntime(fs, paths, candidates).Ok? ==>
              NewLowLevelRuntime(fs, paths, candidates, newForPath) == newForPath(FindRuntime(fs, paths, candidates).value)
  {
  }

  // ---------------------------------------------------------------------------
  // The modifying wrapper

  /** A spec modifier, known by name (its effect is the specification file's business). */
  datatype Modifier = Modifier(name: string)

  /** What the collaborators are asked. */
  datatype Event = Load | Modify(modifier: Modifier) | Flush | Exec(path: string, args: seq<string>)

  /** The log the collaborators share. */
  class Trace {
    var events: seq<Event>

    constructor ()
      ensures events == []
    {
      events := [];
    }
  }

  /** The bundle's specification file, with the outcome of each step fixed. */
  class SpecFile {
    const log: Trace
    const loadErr: Option<string>
    const modifyErr: Modifier -> Option<string>
    const flushErr: Option<string>

    constructor (log: Trace, loadErr: Option<string>, modifyErr: Modifier -> Option<string>, flushErr: Option<string>)
      ensures this.log == log && this.loadErr == loadErr && this.modifyErr == modifyErr && this.flushErr == flushErr
    {
      this.log, this.loadErr, this.modifyErr, this.flushErr := log, loadErr, modifyErr, flushErr;
    }

    method LoadSpec() returns (err: Option<string>)
      modifies log
      ensures err == loadErr && log.events == old(log.events) + [Load]
    {
      err := loadErr;
      log.events := log.events + [Load];
    }

    method ModifySpec(m: Modifier) returns (err: Option<string>)
      modifies log
      ensures err == modifyErr(m) && log.events == old(log.events) + [Modify(m)]
    {
      err := modifyErr(m);
      log.events := log.events + [Modify(m)];
    }

    method FlushSpec() returns (err: Option<string>)
      modifies log
      ensures err == flushErr && log.events == old(log.events) + [Flush]
    {
      err := flushErr;
      log.events := log.events + [Flush];
    }
  }

  /** The low-level runtime binary. */
  class LowLevelRuntime {
    const path: string
    const log: Trace
    const execErr: seq<string> -> Option<string>

    constructor (path: string, log: Trace, execErr: seq<string> -> Option<string>)
      ensures this.path == path && this.log == log && this.execErr == execErr
    {
      this.path, this.log, this.execErr := path, log, execErr;
    }

    method ExecRuntime(args: seq<string>) returns (err: Option<string>)
      modifies log
      ensures err == execErr(args) && log.events == old(log.events) + [Exec(path, args)]
    {
      err := execErr(args);
      log.events := log.events + [Exec(path, args)];
    }
  }

  /** A runtime as the shim sees it: the low-level one, or the wrapper around it. */
  datatype Runtime =
    | Low(runtime: LowLevelRuntime)
    | Modifying(runtime: LowLevelRuntime, spec: SpecFile, modifier: Modifier)

  /** `NewModifyingRuntimeWrapper`: a nil modifier gives back the runtime itself. */
  function NewModifyingRuntimeWrapper(runtime: LowLevelRuntime, spec: SpecFile, modifier: Option<Modifier>): (r: Runtime)
    ensures r.runtime == runtime
  {
    if modifier.None? then Low(runtime) else Modifying(runtime, spec, modifier.value)
  }

  /** The steps of `modify` that run: Load, then Modify, then Flush, each only
      when the one before it succeeded. */
  function ModifySteps(spec: SpecFile, m: Modifier): seq<Event>
  {
    if spec.loadErr.Some? then [Load]
    else if spec.modifyErr(m).Some? then [Load, Modify(m)]
    else [Load, Modify(m), Flush]
  }

  /** The error `modify` returns. */
  function ModifyError(spec: SpecFile, m: Modifier): Option<string>
  {
    if spec.loadErr.Some? then Some("error loading OCI specification for modification: " + spec.loadErr.value)
    else if spec.modifyErr(m).Some? then Some("error modifying OCI spec: " + spec.modifyErr(m).value)
    else if spec.flushErr.Some? then Some("error writing modified OCI specification: " + spec.flushErr.value)
    else None
  }

  /** The events an `Exec` of `r` causes. */
  function ExecTrace(r: Runtime, args: seq<string>, isCreate: bool): seq<Event>
  {
    match r
    case Low(rt) => [Exec(rt.path, args)]
    case Modifying(rt, spec, m) =>
      if !isCreate then [Exec(rt.path, args)]
      else ModifySteps(spec, m) + (if ModifyError(spec, m).Some? then [] else [Exec(rt.path, args)])
  }

  /** The error an `Exec` of `r` returns. */
  function ExecError(r: Runtime, args: seq<string>, isCreate: bool): Option<string>
  {
    if r.Modifying? && isCreate && ModifyError(r.spec, r.modifier).Some? then
      Some("could not apply required modification to OCI specification: " + ModifyError(r.spec, r.modifier).value)
    else r.runtime.execErr(args)
  }

  /** `modifyingRuntimeWrapper.modify`. */
  method ModifyBundle(spec: SpecFile, m: Modifier) returns (err: Option<string>)
    modifies spec.log
    ensures err == ModifyError(spec, m)
    ensures spec.log.events == old(spec.log.events) + ModifySteps(spec, m)
  {
    var e := spec.LoadSpec();
    if e.Some? {
      return Some("error loading OCI specification for modification: " + e.value);
    }
    e := spec.ModifySpec(m);
    if e.Some? {
      return Some("error modifying OCI spec: " + e.value);
    }
    e := spec.FlushSpec();
    if e.Some? {
      return Some("error writing modified OCI specification: " + e.value);
    }
    return None;
  }

  /** `Runtime.Exec`, for the low-level runtime or the wrapper; whether the
      arguments hold a `create` subcommand (`HasCreateSubcommand`, which is not
      part of this model) is the parameter `isCreate`. The wrapper's
      collaborators share one log. */
  method ExecWith(r: Runtime, args: seq<string>, isCreate: bool) returns (err: Option<string>)
    requires r.Modifying? ==> r.spec.log == r.runtime.log
    modifies r.runtime.log
    ensures err == ExecError(r, args, isCreate)
    ensures r.runtime.log.events == old(r.runtime.log.events) + ExecTrace(r, args, isCreate)
  {
    if r.Modifying? && isCreate {
      var e := ModifyBundle(r.spec, r.modifier);
      if e.Some? {
        return Some("could not apply required modification to OCI specification: " + e.value);
      }
    }
    err := r.runtime.ExecRuntime(args);
  }

  /** Whether `s` is a prefix of `t`. */
  predicate IsPrefix(s: seq<Event>, t: seq<Event>)
  {
    |s| <= |t| && t[..|s|] == s
  }

  /** A wrapped `create` runs Load, Modify and Flush in that order and then
      the runtime, stopping at the first failure; the runtime runs, with the
      argument vector unchanged, exactly when all three succeed. */
  lemma CreateOrder(r: Runtime, args: seq<string>)
    requires r.Modifying?
    ensures IsPrefix(ExecTrace(r, args, true), [Load, Modify(r.modifier), Flush, Exec(r.runtime.path, args)])
    ensures Exec(r.runtime.path, args) in ExecTrace(r, args, true) <==>
              r.spec.loadErr.None? && r.spec.modifyErr(r.modifier).None? && r.spec.flushErr.None?
    ensures r.spec.loadErr.Some? ==> ExecTrace(r, args, true) == [Load]
    ensures r.spec.loadErr.None? && r.spec.modifyErr(r.modifier).Some? ==> ExecTrace(r, args, true) == [Load, Modify(r.modifier)]
  {
  }

  /** Without `create`, or without a modifier, the specification is not touched
      and the runtime runs with the arguments unchanged. */
  lemma PassThrough(rt: LowLevelRuntime, spec: SpecFile, modifier: Option<Modifier>, args: seq<string>, isCreate: bool)
    requires modifier.None? || !isCreate
    ensures ExecTrace(NewModifyingRuntimeWrapper(rt, spec, modifier), args, isCreate) == [Exec(rt.path, args)]
    ensures ExecError(NewModifyingRuntimeWrapper(rt, spec, modifier), args, isCreate) == rt.execErr(args)
  {
  }

  /** Whatever happens, the runtime never receives arguments other than the
      ones given, and runs at most once: only the last step can run it. */
  lemma ExecArgsUnchanged(r: Runtime, args: seq<string>, isCreate: bool)
    ensures forall e :: e in ExecTrace(r, args, isCreate) && e.Exec? ==> e == Exec(r.runtime.path, args)
    ensures var t := ExecTrace(r, args, isCreate);
      forall i :: 0 <= i < |t| - 1 ==> !t[i].Exec?
    ensures |ExecTrace(r, args, isCreate)| <= 4
  {
  }
}
