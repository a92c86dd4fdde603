/** The file locator used to find executables: a search over prefixes under a
    root, keeping the glob matches that pass a filter, optionally stopping at a
    count. The file system is an oracle: how paths are joined, what a glob
    pattern matches, and what `stat` says about a path. */
module Lookup {
  import opened Wrappers

  /** What `os.Stat` reports: whether the path is a directory, and its mode bits. */
  datatype FileInfo = FileInfo(isDir: bool, mode: bv32)

  /** The file system as the locator sees it. A glob error stands for a malformed
      pattern; a `stat` of `None` for a path that cannot be stat'ed. */
  datatype Fs = Fs(
    join: (string, string) -> string,
    glob: string -> Result<seq<string>>,
    stat: string -> Option<FileInfo>)

  /** The execute bits of a mode, octal 0111: owner, group and other. */
  const ExecuteBits: bv32 := 0x49

  /** A candidate filter: one of the two in this package, or one given by the caller. */
  datatype Filter = AssertFile | AssertExecutable | Custom(check: string -> Option<string>)

  // ---------------------------------------------------------------------------
  // Filters

  /** `assertFile`: an error when the path cannot be stat'ed or is a directory. */
  function AssertFileError(fs: Fs, filename: string): Option<string>
  {
    match fs.stat(filename)
    case None => Some("error getting info for " + filename)
    case Some(info) => if info.isDir then Some("specified path '" + filename + "' is a directory") else None
  }

  /** `assertExecutable`: `assertFile`, then at least one execute bit. */
  function AssertExecutableError(fs: Fs, filename: string): Option<string>
  {
    var e := AssertFileError(fs, filename);
    if e.Some? then e
    else match fs.stat(filename)
      case None => Some("error getting info for " + filename)
      case Some(info) =>
        if info.mode & ExecuteBits == 0 then Some("specified file '" + filename + "' is not executable") else None
  }

  /** The error a filter reports for a candidate, if any. */
  function FilterError(fs: Fs, f: Filter, candidate: string): Option<string>
  {
    match f
    case AssertFile => AssertFileError(fs, candidate)
    case AssertExecutable => AssertExecutableError(fs, candidate)
    case Custom(check) => check(candidate)
  }

  predicate Accepts(fs: Fs, f: Filter, candidate: string)
  {
    FilterError(fs, f, candidate).None?
  }

  /** `assertFile` accepts exactly the paths that can be stat'ed and are not directories. */
  lemma AssertFileIff(fs: Fs, filename: string)
    ensures Accepts(fs, AssertFile, filename) <==> fs.stat(filename).Some? && !fs.stat(filename).value.isDir
  {
  }

  /** `assertExecutable` rejects whatever `assertFile` rejects, and otherwise
      accepts exactly when some execute bit (owner, group or other) is set. */
  lemma AssertExecutableIff(fs: Fs, filename: string)
    ensures !Accepts(fs, AssertFile, filename) ==> !Accepts(fs, AssertExecutable, filename)
    ensures Accepts(fs, AssertExecutable, filename) <==>
              Accepts(fs, AssertFile, filename) && fs.stat(filename).value.mode & ExecuteBits != 0
  {
  }

  /** Any single execute bit suffices. */
  lemma AnyExecuteBit(fs: Fs, filename: string)
    requires Accepts(fs, AssertFile, filename)
    requires fs.stat(filename).value.mode & ExecuteBits in {0x40, 0x08, 0x01}
    ensures Accepts(fs, AssertExecutable, filename)
  {
  }

  // ---------------------------------------------------------------------------
  // The builder

  /** The builder's fields; the filter is `None` until defaulted. */
  datatype BuilderConfig = BuilderConfig(
    root: string, searchPaths: seq<string>, filter: Option<Filter>, count: int, isOptional: bool)

  const ZeroBuilder: BuilderConfig := BuilderConfig("", [], None, 0, false)

  /** The functional options. */
  datatype LocatorOption =
    | WithRoot(root: string)
    | WithSearchPaths(paths: seq<string>)
    | WithCount(count: int)
    | WithFilter(filter: Filter)

  function ApplyOption(b: BuilderConfig, o: LocatorOption): BuilderConfig
  {
    match o
    case WithRoot(root) => b.(root := root)
    case WithSearchPaths(paths) => b.(searchPaths := paths)
    case WithCount(count) => b.(count := count)
    case WithFilter(f) => b.(filter := Some(f))
  }

  function ApplyOptions(b: BuilderConfig, opts: seq<LocatorOption>): BuilderConfig
    decreases |opts|
  {
    if |opts| == 0 then b else ApplyOption(ApplyOptions(b, opts[..|opts| - 1]), opts[|opts| - 1])
  }

  /** The filter of the last `WithFilter` option, if any: the reference reading
      of "a later option overrides an earlier one". */
  function LastFilter(opts: seq<LocatorOption>): Option<Filter>
    decreases |opts|
  {
    if |opts| == 0 then None
    else if opts[|opts| - 1].WithFilter? then Some(opts[|opts| - 1].filter)
    else LastFilter(opts[..|opts| - 1])
  }

  /** The builder `newBuilder` returns: the options applied in order to the
      zero builder, a missing filter defaulted to `assertFile`. */
  function BuilderOf(opts: seq<LocatorOption>): BuilderConfig
  {
    var a := ApplyOptions(ZeroBuilder, opts);
    if a.filter.None? then a.(filter := Some(AssertFile)) else a
  }

  /** `newBuilder`. */
  method NewBuilder(opts: seq<LocatorOption>) returns (b: BuilderConfig)
    ensures b == BuilderOf(opts)
  {
    b := ZeroBuilder;
    var i := 0;
    while i < |opts|
      invariant 0 <= i <= |opts|
      invariant b == ApplyOptions(ZeroBuilder, opts[..i])
    {
      assert opts[..i + 1][..i] == opts[..i];
      b := ApplyOption(b, opts[i]);
      i := i + 1;
    }
    assert opts[..i] == opts;
    if b.filter.None? {
      b := b.(filter := Some(AssertFile));
    }
  }

  /** The built filter is the last one given, or `assertFile` when none is. */
  lemma {:induction false} FilterOfOptions(b: BuilderConfig, opts: seq<LocatorOption>)
    ensures ApplyOptions(b, opts).filter == if LastFilter(opts).Some? then LastFilter(opts) else b.filter
    decreases |opts|
  {
    if |opts| > 0 {
      FilterOfOptions(b, opts[..|opts| - 1]);
    }
  }

  // ---------------------------------------------------------------------------
  // Search prefixes

  /** The distinct elements of `s`, in the order of their first occurrence. */
  function Dedup(s: seq<string>): seq<string>
    decreases |s|
  {
    if |s| == 0 then []
    else
      var init := s[..|s| - 1];
      Dedup(init) + (if s[|s| - 1] in init then [] else [s[|s| - 1]])
  }

  /** `Dedup` keeps every element, adds none, and repeats none. */
  lemma {:induction false} DedupProperties(s: seq<string>)
    ensures forall x :: x in Dedup(s) <==> x in s
    ensures forall i, j :: 0 <= i < j < |Dedup(s)| ==> Dedup(s)[i] != Dedup(s)[j]
    ensures |Dedup(s)| == 0 <==> |s| == 0
    decreases |s|
  {
    if |s| > 0 {
      var init := s[..|s| - 1];
      DedupProperties(init);
      assert forall x :: x in s <==> x in init || x == s[|s| - 1];
    }
  }

  /** Each raw prefix joined to the root. */
  function JoinAll(join: (string, string) -> string, root: string, ps: seq<string>): (r: seq<string>)
    ensures |r| == |ps| && forall i :: 0 <= i < |ps| ==> r[i] == join(root, ps[i])
    decreases |ps|
  {
    if |ps| == 0 then [] else JoinAll(join, root, ps[..|ps| - 1]) + [join(root, ps[|ps| - 1])]
  }

  /** What `getSearchPrefixes` returns: the root joined to each distinct raw
      prefix in first-occurrence order, or the bare root when there are none. */
  function SearchPrefixes(join: (string, string) -> string, root: string, prefixes: seq<string>): (r: seq<string>)
    ensures |r| > 0
  {
    if |prefixes| == 0 then [root]
    else
      DedupProperties(prefixes);
      JoinAll(join, root, Dedup(prefixes))
  }

  /** `getSearchPrefixes`, with its `seen` map. */
  method GetSearchPrefixes(join: (string, string) -> string, root: string, prefixes: seq<string>) returns (r: seq<string>)
    ensures r == SearchPrefixes(join, root, prefixes)
  {
    var seen: map<string, bool> := map[];
    var unique: seq<string> := [];
    var i := 0;
    while i < |prefixes|
      invariant 0 <= i <= |prefixes|
      invariant forall p :: (p in seen && seen[p]) <==> p in prefixes[..i]
      invariant unique == JoinAll(join, root, Dedup(prefixes[..i]))
    {
      var p := prefixes[i];
      DedupStep(join, root, prefixes, i);
      if !(p in seen && seen[p]) {
        seen := seen[p := true];
        unique := unique + [join(root, p)];
      }
      i := i + 1;
    }
    assert prefixes[..i] == prefixes;
    SearchPrefixesOfUnique(join, root, prefixes);
    if |unique| == 0 {
      unique := unique + [root];
    }
    return unique;
  }

  /** The bare root replaces an empty list of joined prefixes. */
  lemma SearchPrefixesOfUnique(join: (string, string) -> string, root: string, prefixes: seq<string>)
    ensures var unique := JoinAll(join, root, Dedup(prefixes));
      SearchPrefixes(join, root, prefixes) == if |unique| == 0 then [root] else unique
  {
    DedupProperties(prefixes);
  }

  /** One more raw prefix adds its joined form exactly when it is new. */
  lemma DedupStep(join: (string, string) -> string, root: string, prefixes: seq<string>, i: nat)
    requires i < |prefixes|
    ensures forall q :: q in prefixes[..i + 1] <==> q in prefixes[..i] || q == prefixes[i]
    ensures JoinAll(join, root, Dedup(prefixes[..i + 1]))
         == JoinAll(join, root, Dedup(prefixes[..i]))
            + (if prefixes[i] in prefixes[..i] then [] else [join(root, prefixes[i])])
  {
    var pre, ext := prefixes[..i], prefixes[..i + 1];
    assert ext[..i] == pre && ext[i] == prefixes[i];
    assert forall q :: q in ext <==> q in pre || q == prefixes[i];
    if prefixes[i] !in pre {
      assert Dedup(ext) == Dedup(pre) + [prefixes[i]];
      var d := Dedup(ext);
      assert d[..|d| - 1] == Dedup(pre);
    } else {
      assert Dedup(ext) == Dedup(pre);
    }
  }

  /** Every search prefix is the root joined to one of the raw prefixes, or the
      root itself when there are none, and no raw prefix is searched twice. */
  lemma SearchPrefixesCover(join: (string, string) -> string, root: string, prefixes: seq<string>)
    ensures |prefixes| == 0 ==> SearchPrefixes(join, root, prefixes) == [root]
    ensures |prefixes| > 0 ==> |SearchPrefixes(join, root, prefixes)| == |Dedup(prefixes)|
    ensures forall p :: p in prefixes ==> join(root, p) in SearchPrefixes(join, root, prefixes)
  {
    DedupProperties(prefixes);
    if |prefixes| > 0 {
      var d := Dedup(prefixes);
      forall p | p in prefixes
        ensures join(root, p) in SearchPrefixes(join, root, prefixes)
      {
        var k :| 0 <= k < |d| && d[k] == p;
        assert JoinAll(join, root, d)[k] == join(root, p);
      }
    }
  }

  // ---------------------------------------------------------------------------
  // The locator

  /** A built locator: the builder's fields and the search prefixes. */
  datatype FileLocator = FileLocator(config: BuilderConfig, prefixes: seq<string>)

  /** `builder.build`. */
  function Build(join: (string, string) -> string, b: BuilderConfig): (l: FileLocator)
    ensures l.config == b && |l.prefixes| > 0
  {
    FileLocator(b, SearchPrefixes(join, b.root, b.searchPaths))
  }

  /** `newFileLocator`: a builder from the options, built. */
  method NewFileLocator(join: (string, string) -> string, opts: seq<LocatorOption>) returns (l: FileLocator)
    ensures l == Build(join, BuilderOf(opts))
    ensures l.config.filter == if LastFilter(opts).Some? then LastFilter(opts) else Some(AssertFile)
  {
    var b := NewBuilder(opts);
    FilterOfOptions(ZeroBuilder, opts);
    l := Build(join, b);
  }

  /** The matches of a glob pattern; a malformed pattern matches nothing. */
  function Matches(fs: Fs, path: string): seq<string>
  {
    if fs.glob(path).Ok? then fs.glob(path).value else []
  }

  /** The candidates under the prefixes, prefix by prefix, in glob order. */
  function Candidates(fs: Fs, prefixes: seq<string>, pattern: string): seq<string>
    decreases |prefixes|
  {
    if |prefixes| == 0 then []
    else Candidates(fs, prefixes[..|prefixes| - 1], pattern) + Matches(fs, fs.join(prefixes[|prefixes| - 1], pattern))
  }

  /** The candidates, in order, that the filter accepts. */
  function Accepted(fs: Fs, f: Filter, cs: seq<string>): seq<string>
    decreases |cs|
  {
    if |cs| == 0 then []
    else Accepted(fs, f, cs[..|cs| - 1]) + (if Accepts(fs, f, cs[|cs| - 1]) then [cs[|cs| - 1]] else [])
  }

  /** At most the first `count` elements when `count` is positive; all otherwise. */
  function Take(s: seq<string>, count: int): (r: seq<string>)
    ensures count > 0 ==> |r| <= count
    ensures count > 0 && |s| >= count ==> r == s[..count]
    ensures (count <= 0 || |s| < count) ==> r == s
  {
    if count > 0 && |s| > count then s[..count] else s
  }

  /** What `file.Locate` returns: the accepted candidates, cut to the count; an
      error when none are found and the locator is not optional. */
  function LocateSpec(fs: Fs, l: FileLocator, pattern: string): (r: Result<seq<string>>)
    requires l.config.filter.Some?
    ensures l.config.isOptional ==> r.Ok?
    ensures r.Ok? && l.config.count > 0 ==> |r.value| <= l.config.count
  {
    var found := Take(Accepted(fs, l.config.filter.value, Candidates(fs, l.prefixes, pattern)), l.config.count);
    if !l.config.isOptional && |found| == 0 then Err("pattern " + pattern + " not found") else Ok(found)
  }

  lemma {:induction false} CandidatesAppend(fs: Fs, xs: seq<string>, ys: seq<string>, pattern: string)
    ensures Candidates(fs, xs + ys, pattern) == Candidates(fs, xs, pattern) + Candidates(fs, ys, pattern)
    decreases |ys|
  {
    if |ys| == 0 {
      assert xs + ys == xs;
    } else {
      var ys0, y := ys[..|ys| - 1], ys[|ys| - 1];
      var all := xs + ys;
      assert all[..|all| - 1] == xs + ys0 && all[|all| - 1] == y;
      CandidatesAppend(fs, xs, ys0, pattern);
      var m := Matches(fs, fs.join(y, pattern));
      assert Candidates(fs, all, pattern) == Candidates(fs, xs + ys0, pattern) + m;
      assert Candidates(fs, ys, pattern) == Candidates(fs, ys0, pattern) + m;
    }
  }

  lemma {:induction false} AcceptedAppend(fs: Fs, f: Filter, xs: seq<string>, ys: seq<string>)
    ensures Accepted(fs, f, xs + ys) == Accepted(fs, f, xs) + Accepted(fs, f, ys)
    decreases |ys|
  {
    if |ys| == 0 {
      assert xs + ys == xs;
    } else {
      var ys0, y := ys[..|ys| - 1], ys[|ys| - 1];
      var all := xs + ys;
      assert all[..|all| - 1] == xs + ys0 && all[|all| - 1] == y;
      AcceptedAppend(fs, f, xs, ys0);
      var m := if Accepts(fs, f, y) then [y] else [];
      assert Accepted(fs, f, all) == Accepted(fs, f, xs + ys0) + m;
      assert Accepted(fs, f, ys) == Accepted(fs, f, ys0) + m;
    }
  }

  /** Every accepted path is a candidate that passes the filter, and every
      candidate that passes is accepted. */
  lemma {:induction false} AcceptedIff(fs: Fs, f: Filter, cs: seq<string>)
    ensures forall x :: x in Accepted(fs, f, cs) <==> x in cs && Accepts(fs, f, x)
    ensures |Accepted(fs, f, cs)| <= |cs|
    decreases |cs|
  {
    if |cs| > 0 {
      var init := cs[..|cs| - 1];
      AcceptedIff(fs, f, init);
      assert forall x :: x in cs <==> x in init || x == cs[|cs| - 1];
    }
  }

  /** A successful `Locate` returns only candidates that pass the filter, and
      never more than a positive count. */
  lemma LocateSound(fs: Fs, l: FileLocator, pattern: string)
    requires l.config.filter.Some?
    ensures var r := LocateSpec(fs, l, pattern);
      r.Ok? ==>
        && (l.config.count > 0 ==> |r.value| <= l.config.count)
        && (forall x :: x in r.value ==> x in Candidates(fs, l.prefixes, pattern) && Accepts(fs, l.config.filter.value, x))
    ensures LocateSpec(fs, l, pattern).Err? <==>
      !l.config.isOptional && forall x :: x in Candidates(fs, l.prefixes, pattern) ==> !Accepts(fs, l.config.filter.value, x)
  {
    var cs := Candidates(fs, l.prefixes, pattern);
    var acc := Accepted(fs, l.config.filter.value, cs);
    AcceptedIff(fs, l.config.filter.value, cs);
    var found := Take(acc, l.config.count);
    assert forall x :: x in found ==> x in acc;
    if |acc| > 0 {
      assert acc[0] in found;
    }
  }

  /** One step of the candidate loop. */
  lemma AcceptedStep(fs: Fs, f: Filter, done: seq<string>, cands: seq<string>, j: nat)
    requires j < |cands|
    ensures Accepted(fs, f, done + cands[..j + 1])
         == Accepted(fs, f, done + cands[..j]) + (if Accepts(fs, f, cands[j]) then [cands[j]] else [])
  {
    assert (done + cands[..j + 1])[..|done| + j] == done + cands[..j];
  }

  /** Once the first `count` accepted paths are known, nothing later changes them. */
  lemma TakeExtend(xs: seq<string>, ys: seq<string>, count: int)
    requires count > 0 && |xs| >= count
    ensures Take(xs + ys, count) == Take(xs, count)
  {
    assert (xs + ys)[..count] == xs[..count];
  }

  /** The candidates of the first `i + 1` prefixes. */
  lemma CandidatesStep(fs: Fs, prefixes: seq<string>, i: nat, pattern: string)
    requires i < |prefixes|
    ensures Candidates(fs, prefixes[..i + 1], pattern)
         == Candidates(fs, prefixes[..i], pattern) + Matches(fs, fs.join(prefixes[i], pattern))
  {
    assert prefixes[..i + 1][..i] == prefixes[..i];
  }

  /** `file.Locate`: prefix by prefix, stopping at the count-th accepted path
      (the labelled `break visit`). The filter must have been set (calling a
      nil filter would panic); `newBuilder` always sets one. */
  method Locate(fs: Fs, l: FileLocator, pattern: string) returns (r: Result<seq<string>>)
    requires l.config.filter.Some?
    ensures r == LocateSpec(fs, l, pattern)
  {
    var f := l.config.filter.value;
    var count := l.config.count;
    var filenames: seq<string> := [];
    var i := 0;
    ghost var all := Candidates(fs, l.prefixes, pattern);
    while i < |l.prefixes|
      invariant 0 <= i <= |l.prefixes|
      invariant filenames == Accepted(fs, f, Candidates(fs, l.prefixes[..i], pattern))
      invariant count > 0 ==> |filenames| < count
    {
      var pathPattern := fs.join(l.prefixes[i], pattern);
      var globbed := fs.glob(pathPattern);
      var candidates := if globbed.Ok? then globbed.value else [];
      ghost var done := Candidates(fs, l.prefixes[..i], pattern);
      var stopped;
      filenames, stopped := VisitCandidates(fs, f, count, done, filenames, candidates);
      CandidatesStep(fs, l.prefixes, i, pattern);
      if stopped {
        CandidatesAppend(fs, l.prefixes[..i + 1], l.prefixes[i + 1..], pattern);
        assert l.prefixes[..i + 1] + l.prefixes[i + 1..] == l.prefixes;
        var seen := Accepted(fs, f, done + candidates);
        AcceptedAppend(fs, f, done + candidates, Candidates(fs, l.prefixes[i + 1..], pattern));
        TakeExtend(seen, Accepted(fs, f, Candidates(fs, l.prefixes[i + 1..], pattern)), count);
        break;
      }
      i := i + 1;
    }
    if i == |l.prefixes| {
      assert l.prefixes[..i] == l.prefixes;
    }
    if !l.config.isOptional && |filenames| == 0 {
      return Err("pattern " + pattern + " not found");
    }
    return Ok(filenames);
  }

  /** The inner loop of `file.Locate` over one prefix's candidates: append the
      accepted ones until the count is reached. */
  method VisitCandidates(fs: Fs, f: Filter, count: int, ghost done: seq<string>,
                         filenames0: seq<string>, candidates: seq<string>)
    returns (filenames: seq<string>, stopped: bool)
    requires filenames0 == Accepted(fs, f, done)
    requires count > 0 ==> |filenames0| < count
    ensures !stopped ==> filenames == Accepted(fs, f, done + candidates) && (count > 0 ==> |filenames| < count)
    ensures stopped ==> count > 0 && |filenames| == count && filenames == Take(Accepted(fs, f, done + candidates), count)
  {
    filenames := filenames0;
    assert done + candidates[..0] == done;
    var j := 0;
    while j < |candidates|
      invariant 0 <= j <= |candidates|
      invariant filenames == Accepted(fs, f, done + candidates[..j])
      invariant count > 0 ==> |filenames| < count
    {
      var candidate := candidates[j];
      AcceptedStep(fs, f, done, candidates, j);
      if FilterError(fs, f, candidate).Some? {
        j := j + 1;
        continue;
      }
      filenames := filenames + [candidate];
      if count > 0 && |filenames| == count {
        assert done + candidates == (done + candidates[..j + 1]) + candidates[j + 1..];
        AcceptedAppend(fs, f, done + candidates[..j + 1], candidates[j + 1..]);
        TakeExtend(filenames, Accepted(fs, f, candidates[j + 1..]), count);
        return filenames, true;
      }
      j := j + 1;
    }
    assert candidates[..j] == candidates;
    return filenames, false;
  }

  // ---------------------------------------------------------------------------
  // The executable locator

  /** The options `newExecutableLocator` passes. */
  function ExecutableOptions(root: string, paths: seq<string>): seq<LocatorOption>
  {
    [WithRoot(root), WithSearchPaths(paths), WithFilter(AssertExecutable), WithCount(1)]
  }

  /** `newExecutableLocator`: the given root and paths, `assertExecutable` as
      the filter, a count of one, not optional. */
  method NewExecutableLocator(join: (string, string) -> string, root: string, paths: seq<string>) returns (l: FileLocator)
    ensures l.config == BuilderConfig(root, paths, Some(AssertExecutable), 1, false)
    ensures l.prefixes == SearchPrefixes(join, root, paths)
  {
    var opts := ExecutableOptions(root, paths);
    ghost var b0 := ZeroBuilder;
    assert ApplyOptions(b0, opts) == BuilderConfig(root, paths, Some(AssertExecutable), 1, false) by {
      assert opts[..1][..0] == [];
      assert ApplyOptions(b0, opts[..1]) == b0.(root := root);
      assert opts[..2][..1] == opts[..1];
      assert ApplyOptions(b0, opts[..2]) == b0.(root := root, searchPaths := paths);
      assert opts[..3][..2] == opts[..2];
      assert ApplyOptions(b0, opts[..3]) == b0.(root := root, searchPaths := paths, filter := Some(AssertExecutable));
      assert opts[..4][..3] == opts[..3] && opts[..4] == opts;
    }
    assert BuilderOf(opts) == BuilderConfig(root, paths, Some(AssertExecutable), 1, false);
    l := NewFileLocator(join, opts);
  }

  /** The executable locator finds at most one path; every path it finds passes
      `assertExecutable`. */
  lemma ExecutableLocatesAtMostOne(fs: Fs, root: string, paths: seq<string>, pattern: string)
    ensures var l := Build(fs.join, BuilderConfig(root, paths, Some(AssertExecutable), 1, false));
      var r := LocateSpec(fs, l, pattern);
      r.Ok? ==> |r.value| == 1 && Accepts(fs, AssertExecutable, r.value[0])
  {
    var l := Build(fs.join, BuilderConfig(root, paths, Some(AssertExecutable), 1, false));
    LocateSound(fs, l, pattern);
  }
}
