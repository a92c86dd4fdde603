/** The image view of a container: its `KEY=VALUE` environment as a map, the
    visible-device selection read from it, and the SDK selection. */
module Image {
  import opened Wrappers
  import opened Strs
  import Settings
  import Specs
  import Seqs

  /** What the image view holds: the environment map, the mounts and the
      daemon configuration (a pointer that may be nil). */
  datatype CUDA = CUDA(env: map<string, string>, mounts: seq<Specs.Mount>, cfg: Settings.Config?)

  /** The zero `CUDA` that `New` returns together with an error. */
  const ZeroImage: CUDA := CUDA(map[], [], null)

  // ---------------------------------------------------------------------------
  // The environment list

  /** The parsed environment list: the first entry without `=` is an error;
      otherwise each entry's key maps to its value, a later entry overwriting an
      earlier one with the same key. */
  function ParseEnv(entries: seq<string>): (r: Result<map<string, string>>)
    ensures r.Err? <==> exists k :: 0 <= k < |entries| && '=' !in entries[k]
    decreases |entries|
  {
    if |entries| == 0 then Ok(map[])
    else
      var init := entries[..|entries| - 1];
      var last := entries[|entries| - 1];
      var m := ParseEnv(init);
      if m.Err? then
        assert exists k :: 0 <= k < |entries| && '=' !in entries[k] by {
          var k :| 0 <= k < |init| && '=' !in init[k];
          assert entries[k] == init[k];
        }
        m
      else
        match SplitKeyValue(last)
        case None => Err("invalid environment variable: " + last)
        case Some(kv) =>
          assert forall k :: 0 <= k < |init| ==> entries[k] == init[k];
          Ok(m.value[kv.0 := kv.1])
  }

  /** The key of an entry: the text before its first `=`. */
  function EntryKey(e: string): string
    requires '=' in e
  {
    SplitKeyValue(e).value.0
  }

  /** The value of an entry: everything after its first `=`. */
  function EntryValue(e: string): string
    requires '=' in e
  {
    SplitKeyValue(e).value.1
  }

  /** The value the last entry with key `key` gives, if any: the reference
      reading of "later entries win". */
  function LastValueOf(entries: seq<string>, key: string): Option<string>
    requires forall k :: 0 <= k < |entries| ==> '=' in entries[k]
  {
    if |entries| == 0 then None
    else if EntryKey(entries[|entries| - 1]) == key then Some(EntryValue(entries[|entries| - 1]))
    else LastValueOf(entries[..|entries| - 1], key)
  }

  /** A well-formed list maps each key to the value of its LAST entry, and has
      no other keys. */
  lemma {:induction false} ParseEnvLastWins(entries: seq<string>, key: string)
    requires forall k :: 0 <= k < |entries| ==> '=' in entries[k]
    ensures ParseEnv(entries).Ok?
    ensures key in ParseEnv(entries).value <==> LastValueOf(entries, key).Some?
    ensures key in ParseEnv(entries).value ==> ParseEnv(entries).value[key] == LastValueOf(entries, key).value
    decreases |entries|
  {
    if |entries| > 0 {
      var init := entries[..|entries| - 1];
      assert forall k :: 0 <= k < |init| ==> init[k] == entries[k];
      ParseEnvLastWins(init, key);
    }
  }

  /** Appending `KEY=VALUE` to a well-formed list sets `KEY` to exactly `VALUE`,
      whatever came before, and leaves the other keys alone. */
  lemma AppendedEntryWins(entries: seq<string>, key: string, value: string)
    requires ParseEnv(entries).Ok?
    requires '=' !in key
    ensures ParseEnv(entries + [key + "=" + value]) == Ok(ParseEnv(entries).value[key := value])
  {
    var all := entries + [key + "=" + value];
    assert all[..|all| - 1] == entries;
    SplitKeyValueOfEntry(key, value);
  }

  /** The loop of `WithEnv`, filling a fresh map entry by entry. */
  method EnvMapFromList(entries: seq<string>) returns (r: Result<map<string, string>>)
    ensures r == ParseEnv(entries)
  {
    var envmap: map<string, string> := map[];
    var i := 0;
    while i < |entries|
      invariant 0 <= i <= |entries|
      invariant ParseEnv(entries[..i]) == Ok(envmap)
    {
      var e := entries[i];
      assert entries[..i + 1][..i] == entries[..i];
      var parts := SplitKeyValue(e);
      if parts.None? {
        PrefixError(entries, i);
        return Err("invalid environment variable: " + e);
      }
      envmap := envmap[parts.value.0 := parts.value.1];
      i := i + 1;
    }
    assert entries[..i] == entries;
    return Ok(envmap);
  }

  /** An invalid entry makes every longer list invalid, with the same error. */
  lemma {:induction false} PrefixError(entries: seq<string>, i: nat)
    requires i < |entries| && ParseEnv(entries[..i]).Ok? && '=' !in entries[i]
    ensures ParseEnv(entries) == Err("invalid environment variable: " + entries[i])
    decreases |entries|
  {
    if |entries| == i + 1 {
      assert entries[..|entries| - 1] == entries[..i];
    } else {
      var init := entries[..|entries| - 1];
      assert init[..i] == entries[..i] && init[i] == entries[i];
      PrefixError(init, i);
    }
  }

  // ---------------------------------------------------------------------------
  // The builder and its options

  /** The options `New` accepts. */
  datatype ImageOption =
    | WithEnv(entries: seq<string>)
    | WithEnvMap(envMap: map<string, string>)
    | WithMounts(mounts: seq<Specs.Mount>)
    | WithConfig(cfg: Settings.Config?)

  /** The builder's fields; `env` is `None` while it is still the nil map. */
  datatype BuilderFields = BuilderFields(env: Option<map<string, string>>, mounts: seq<Specs.Mount>, cfg: Settings.Config?)

  /** What one option does to the builder, or its error. */
  function ApplyOption(b: BuilderFields, o: ImageOption): (r: Result<BuilderFields>)
    ensures o.WithEnv? ==> (r.Err? <==> ParseEnv(o.entries).Err?)
    ensures r.Ok? && (o.WithEnv? || o.WithEnvMap?) ==> r.value.mounts == b.mounts && r.value.cfg == b.cfg
    ensures r.Ok? && (o.WithMounts? || o.WithConfig?) ==> r.value.env == b.env
  {
    match o
    case WithEnv(entries) =>
      var m :- ParseEnv(entries);
      Ok(b.(env := Some(m)))
    case WithEnvMap(m) => Ok(b.(env := Some(m)))
    case WithMounts(ms) => Ok(b.(mounts := ms))
    case WithConfig(c) => Ok(b.(cfg := c))
  }

  /** The options applied in order, stopping at the first error. */
  function ApplyAll(b: BuilderFields, opts: seq<ImageOption>): Result<BuilderFields>
    decreases |opts|
  {
    if |opts| == 0 then Ok(b)
    else
      var b' :- ApplyOption(b, opts[0]);
      ApplyAll(b', opts[1..])
  }

  const EmptyBuilder: BuilderFields := BuilderFields(None, [], null)

  /** A later `WithEnv` or `WithEnvMap` replaces the whole environment map, so
      only the last one that ran decides it. */
  lemma {:induction false} LaterEnvOptionReplaces(b: BuilderFields, opts: seq<ImageOption>, m: map<string, string>)
    requires ApplyAll(b, opts).Ok?
    ensures ApplyAll(b, opts + [WithEnvMap(m)]) == Ok(ApplyAll(b, opts).value.(env := Some(m)))
    decreases |opts|
  {
    if |opts| == 0 {
      assert opts + [WithEnvMap(m)] == [WithEnvMap(m)];
    } else {
      assert (opts + [WithEnvMap(m)])[1..] == opts[1..] + [WithEnvMap(m)];
      LaterEnvOptionReplaces(ApplyOption(b, opts[0]).value, opts[1..], m);
    }
  }

  /** Options that never touch the environment leave it as it was, so with no
      environment option it stays nil. */
  lemma {:induction false} NoEnvOptionKeepsEnv(b: BuilderFields, opts: seq<ImageOption>)
    requires forall k :: 0 <= k < |opts| ==> opts[k].WithMounts? || opts[k].WithConfig?
    ensures ApplyAll(b, opts).Ok? && ApplyAll(b, opts).value.env == b.env
    decreases |opts|
  {
    if |opts| > 0 {
      NoEnvOptionKeepsEnv(ApplyOption(b, opts[0]).value, opts[1..]);
    }
  }

  /** An invalid entry in any `WithEnv` that is reached fails the whole build. */
  lemma {:induction false} InvalidEnvFails(b: BuilderFields, opts: seq<ImageOption>, env: seq<string>)
    requires ParseEnv(env).Err?
    ensures ApplyAll(b, [WithEnv(env)] + opts).Err?
  {
  }

  /** `build`: the image takes the builder's fields unchanged. */
  function Build(b: BuilderFields): (c: CUDA)
    requires b.env.Some?
    ensures c.env == b.env.value && c.mounts == b.mounts && c.cfg == b.cfg
  {
    CUDA(b.env.value, b.mounts, b.cfg)
  }

  /** The builder: options change its fields in place. */
  class Builder {
    var env: Option<map<string, string>>
    var mounts: seq<Specs.Mount>
    var cfg: Settings.Config?

    function Fields(): BuilderFields
      reads this
    {
      BuilderFields(env, mounts, cfg)
    }

    constructor ()
      ensures Fields() == EmptyBuilder
    {
      env, mounts, cfg := None, [], null;
    }

    /** Runs one option; on an error the builder is unchanged. */
    method Apply(o: ImageOption) returns (err: Option<string>)
      modifies this
      ensures err.None? <==> ApplyOption(old(Fields()), o).Ok?
      ensures err.None? ==> Fields() == ApplyOption(old(Fields()), o).value
      ensures err.Some? ==> Fields() == old(Fields())
    {
      match o {
        case WithEnv(entries) =>
          var m := EnvMapFromList(entries);
          if m.Err? {
            return Some(m.msg);
          }
          env := Some(m.value);
        case WithEnvMap(m) =>
          env := Some(m);
        case WithMounts(ms) =>
          mounts := ms;
        case WithConfig(c) =>
          cfg := c;
      }
      return None;
    }
  }

  /** `New`: the options in order; the first error gives the zero image and that
      error; otherwise the image built from the fields, a nil map becoming empty. */
  method New(opts: seq<ImageOption>) returns (img: CUDA, err: Option<string>)
    ensures err.Some? <==> ApplyAll(EmptyBuilder, opts).Err?
    ensures err.Some? ==> img == ZeroImage
    ensures err.None? ==> img == Build(NilEnvToEmpty(ApplyAll(EmptyBuilder, opts).value))
  {
    var b := new Builder();
    var i := 0;
    while i < |opts|
      invariant 0 <= i <= |opts|
      invariant ApplyAll(EmptyBuilder, opts) == ApplyAll(b.Fields(), opts[i..])
    {
      var e := b.Apply(opts[i]);
      if e.Some? {
        return ZeroImage, e;
      }
      assert opts[i..][1..] == opts[i + 1..];
      i := i + 1;
    }
    if b.env.None? {
      b.env := Some(map[]);
    }
    img := Build(b.Fields());
    return img, None;
  }

  /** The defaulting step of `New`: a nil environment map becomes empty. */
  function NilEnvToEmpty(b: BuilderFields): (r: BuilderFields)
    ensures r.env.Some? && r.mounts == b.mounts && r.cfg == b.cfg
    ensures b.env.Some? ==> r.env == b.env
    ensures b.env.None? ==> r.env == Some(map[])
  {
    if b.env.None? then b.(env := Some(map[])) else b
  }

  /** `NewCUDAImageFromSpec`: the environment is the process's when there is one
      and empty otherwise; an invalid entry is an error with the zero image. */
  method NewCUDAImageFromSpec(spec: Specs.Spec, cfg: Settings.Config?) returns (img: CUDA, err: Option<string>)
    ensures var env := if spec.process.Some? then spec.process.value.env else [];
      && (err.Some? <==> ParseEnv(env).Err?)
      && (err.Some? ==> img == ZeroImage)
      && (err.None? ==> img == CUDA(ParseEnv(env).value, spec.mounts, cfg))
  {
    var env: seq<string> := [];
    if spec.process.Some? {
      env := spec.process.value.env;
    }
    var opts := [WithEnv(env), WithMounts(spec.mounts), WithConfig(cfg)];
    SpecOptions(env, spec.mounts, cfg);
    img, err := New(opts);
  }

  /** The three options `NewCUDAImageFromSpec` passes to `New`. */
  lemma SpecOptions(env: seq<string>, ms: seq<Specs.Mount>, cfg: Settings.Config?)
    ensures ApplyAll(EmptyBuilder, [WithEnv(env), WithMounts(ms), WithConfig(cfg)])
         == if ParseEnv(env).Err? then Err(ParseEnv(env).msg)
            else Ok(BuilderFields(Some(ParseEnv(env).value), ms, cfg))
  {
    var opts := [WithEnv(env), WithMounts(ms), WithConfig(cfg)];
    assert opts[1..] == [WithMounts(ms), WithConfig(cfg)];
    assert opts[1..][1..] == [WithConfig(cfg)];
    assert opts[1..][1..][1..] == [];
    var first := ApplyOption(EmptyBuilder, WithEnv(env));
    if ParseEnv(env).Ok? {
      var b1 := BuilderFields(Some(ParseEnv(env).value), [], null);
      assert first == Ok(b1);
      var b2 := b1.(mounts := ms);
      assert ApplyOption(b1, WithMounts(ms)) == Ok(b2);
      var b3 := b2.(cfg := cfg);
      assert ApplyOption(b2, WithConfig(cfg)) == Ok(b3);
      assert ApplyAll(b3, []) == Ok(b3);
      assert ApplyAll(b2, [WithConfig(cfg)]) == Ok(b3);
      assert ApplyAll(b1, [WithMounts(ms), WithConfig(cfg)]) == Ok(b3);
    } else {
      assert first == Err(ParseEnv(env).msg);
    }
  }

  // ---------------------------------------------------------------------------
  // The visible-device selection

  /** The non-empty trimmed pieces of a comma-separated value, in order. */
  function NonEmptyTrimmed(pieces: seq<string>): (ts: seq<string>)
    ensures |ts| <= |pieces|
    decreases |pieces|
  {
    if |pieces| == 0 then []
    else
      var t := TrimSpace(pieces[|pieces| - 1]);
      NonEmptyTrimmed(pieces[..|pieces| - 1]) + (if |t| == 0 then [] else [t])
  }

  /** The tokens of one variable's value. */
  function Tokens(value: string): seq<string>
  {
    NonEmptyTrimmed(Split(value, ','))
  }

  /** The tokens of every variable that is present, in argument order. */
  function RequestedTokens(env: map<string, string>, vars: seq<string>): seq<string>
    decreases |vars|
  {
    if |vars| == 0 then []
    else
      var v := vars[|vars| - 1];
      RequestedTokens(env, vars[..|vars| - 1]) + (if v in env then Tokens(env[v]) else [])
  }

  predicate AnySet(env: map<string, string>, vars: seq<string>)
  {
    exists k :: 0 <= k < |vars| && vars[k] in env
  }

  /** The device list that `DevicesFromEnvvars` hands to `NewVisibleDevices`. */
  function SelectDevices(env: map<string, string>, vars: seq<string>): (r: seq<string>)
    ensures |r| > 0
    ensures !AnySet(env, vars) ==> r == ["all"]
    ensures "void" in RequestedTokens(env, vars) ==> r == ["void"]
  {
    var devices := RequestedTokens(env, vars);
    if !AnySet(env, vars) then
      assert devices == [] by { NoneSetNoTokens(env, vars); }
      ["all"]
    else if |devices| == 0 || "void" in devices then ["void"]
    else devices
  }

  lemma {:induction false} NoneSetNoTokens(env: map<string, string>, vars: seq<string>)
    requires !AnySet(env, vars)
    ensures RequestedTokens(env, vars) == []
    decreases |vars|
  {
    if |vars| > 0 {
      var init := vars[..|vars| - 1];
      assert !AnySet(env, init) by {
        forall k | 0 <= k < |init| ensures init[k] !in env {
          assert init[k] == vars[k];
        }
      }
      NoneSetNoTokens(env, init);
    }
  }

  /** A well-formed token: non-empty, without a comma, and with no whitespace at either end. */
  predicate IsToken(t: string)
  {
    |t| > 0 && ',' !in t && !IsSpace(t[0]) && !IsSpace(t[|t| - 1])
  }

  lemma {:induction false} NonEmptyTrimmedTokens(pieces: seq<string>)
    requires forall k :: 0 <= k < |pieces| ==> ',' !in pieces[k]
    ensures forall k :: 0 <= k < |NonEmptyTrimmed(pieces)| ==> IsToken(NonEmptyTrimmed(pieces)[k])
    decreases |pieces|
  {
    if |pieces| > 0 {
      var init := pieces[..|pieces| - 1];
      var p := pieces[|pieces| - 1];
      assert forall k :: 0 <= k < |init| ==> init[k] == pieces[k];
      NonEmptyTrimmedTokens(init);
      var t := TrimSpace(p);
      var last: seq<string> := if |t| == 0 then [] else [t];
      assert NonEmptyTrimmed(pieces) == NonEmptyTrimmed(init) + last;
      TrimmedPieceIsToken(p);
      assert forall k :: 0 <= k < |last| ==> IsToken(last[k]);
      AllTokensAppend(NonEmptyTrimmed(init), last);
    }
  }

  /** A trimmed piece without commas is a token unless it is empty. */
  lemma TrimmedPieceIsToken(p: string)
    requires ',' !in p
    ensures |TrimSpace(p)| > 0 ==> IsToken(TrimSpace(p))
  {
    var t := TrimSpace(p);
    if |t| > 0 {
      var i :| TrimmedAt(t, p, i, IsSpace);
      assert forall c :: c in t ==> c in p;
    }
  }

  /** Two lists of tokens make a list of tokens. */
  lemma AllTokensAppend(a: seq<string>, b: seq<string>)
    requires forall k :: 0 <= k < |a| ==> IsToken(a[k])
    requires forall k :: 0 <= k < |b| ==> IsToken(b[k])
    ensures forall k :: 0 <= k < |a + b| ==> IsToken((a + b)[k])
  {
  }

  /** Every token of the selection is non-empty, comma-free and trimmed. */
  lemma {:induction false} RequestedTokensWellFormed(env: map<string, string>, vars: seq<string>)
    ensures forall k :: 0 <= k < |RequestedTokens(env, vars)| ==> IsToken(RequestedTokens(env, vars)[k])
    decreases |vars|
  {
    if |vars| > 0 {
      var v := vars[|vars| - 1];
      RequestedTokensWellFormed(env, vars[..|vars| - 1]);
      if v in env {
        NonEmptyTrimmedTokens(Split(env[v], ','));
      }
    }
  }

  /** Tokens follow the argument order of the variables: the selection of a
      concatenation is the concatenation of the selections. */
  lemma {:induction false} RequestedTokensAppend(env: map<string, string>, xs: seq<string>, ys: seq<string>)
    ensures RequestedTokens(env, xs + ys) == RequestedTokens(env, xs) + RequestedTokens(env, ys)
    decreases |ys|
  {
    if |ys| == 0 {
      assert xs + ys == xs;
    } else {
      var zs, ys0, y := xs + ys, ys[..|ys| - 1], ys[|ys| - 1];
      assert zs[..|zs| - 1] == xs + ys0;
      assert zs[|zs| - 1] == y;
      var last := if y in env then Tokens(env[y]) else [];
      assert RequestedTokens(env, zs) == RequestedTokens(env, xs + ys0) + last;
      assert RequestedTokens(env, ys) == RequestedTokens(env, ys0) + last;
      RequestedTokensAppend(env, xs, ys0);
      Seqs.AppendAssoc(RequestedTokens(env, xs), RequestedTokens(env, ys0), last);
    }
  }

  /** The selection is the token list itself whenever some variable is set, it
      has a token, and no token is `void`; `all` and `none` pass through. */
  lemma SelectionIsTokens(env: map<string, string>, vars: seq<string>)
    requires AnySet(env, vars)
    requires RequestedTokens(env, vars) != [] && "void" !in RequestedTokens(env, vars)
    ensures SelectDevices(env, vars) == RequestedTokens(env, vars)
  {
  }

  /** A variable that is present but yields no token selects `void`. */
  lemma SetButEmptyIsVoid(env: map<string, string>, vars: seq<string>)
    requires AnySet(env, vars) && RequestedTokens(env, vars) == []
    ensures SelectDevices(env, vars) == ["void"]
  {
  }

  /** Blank pieces give no tokens. */
  lemma BlankTokensExample()
    ensures Tokens(" , ") == []
  {
    var t1 := " ";
    assert Split(" , ", ',') == [t1, t1] by {
      var t2 := " , ";
      assert t2[..1] == t1 && t2[2..] == t1 && ',' !in t1;
      SplitAtFirst(t2, ',', 1);
    }
    TrimSpaceExamples();
    assert [t1, t1][..1] == [t1] && [t1][..0] == [];
    assert NonEmptyTrimmed([t1]) == [];
  }

  /** A lone space trims to nothing. */
  lemma TrimSpaceExamples()
    ensures TrimSpace(" ") == ""
  {
    var sp := " ";
    assert LeadingCount(sp, IsSpace) == 1 by {
      assert sp[1..] == "";
    }
    assert sp[1..] == "";
  }

  /** The loops of `DevicesFromEnvvars`: `requested` marks every token put on
      the list, and is asked whether `void` was among them. */
  method DevicesFromEnvvars(img: CUDA, envVars: seq<string>) returns (devices: seq<string>)
    ensures devices == SelectDevices(img.env, envVars)
  {
    var isSet := false;
    var requested: map<string, bool> := map[];
    var list: seq<string> := [];
    var i := 0;
    while i < |envVars|
      invariant 0 <= i <= |envVars|
      invariant list == RequestedTokens(img.env, envVars[..i])
      invariant isSet <==> AnySet(img.env, envVars[..i])
      invariant Marks(requested, list)
    {
      var envVar := envVars[i];
      assert envVars[..i + 1][..i] == envVars[..i];
      if envVar in img.env {
        isSet := true;
        list, requested := AppendTokens(list, requested, Split(img.env[envVar], ','));
      }
      AnySetExtend(img.env, envVars, i);
      i := i + 1;
    }
    assert envVars[..i] == envVars;
    if !isSet {
      NoneSetNoTokens(img.env, envVars);
    }
    if !isSet && |list| == 0 {
      return ["all"];
    }
    if |list| == 0 || ("void" in requested && requested["void"]) {
      return ["void"];
    }
    return list;
  }

  /** What the loops need of `requested`: `void` is marked `true` exactly when
      it is on the list. */
  predicate Marks(requested: map<string, bool>, list: seq<string>)
  {
    ("void" in requested && requested["void"]) <==> "void" in list
  }

  lemma MarkStep(requested: map<string, bool>, list: seq<string>, t: string)
    requires Marks(requested, list)
    ensures Marks(requested[t := true], list + [t])
  {
    assert "void" in list + [t] <==> "void" in list || t == "void";
  }

  /** The inner loop: the trimmed non-empty pieces go onto the list in order,
      each one marked as requested. */
  method AppendTokens(list0: seq<string>, requested0: map<string, bool>, pieces: seq<string>)
    returns (list: seq<string>, requested: map<string, bool>)
    requires Marks(requested0, list0)
    ensures list == list0 + NonEmptyTrimmed(pieces)
    ensures Marks(requested, list)
  {
    list, requested := list0, requested0;
    var j := 0;
    while j < |pieces|
      invariant 0 <= j <= |pieces|
      invariant list == list0 + NonEmptyTrimmed(pieces[..j])
      invariant Marks(requested, list)
    {
      var trimmed := TrimSpace(pieces[j]);
      AppendStep(list0, pieces, j, list);
      if |trimmed| != 0 {
        MarkStep(requested, list, trimmed);
        list := list + [trimmed];
        requested := requested[trimmed := true];
      }
      j := j + 1;
    }
    assert pieces[..j] == pieces;
  }

  /** One round of the inner loop extends the list by the next piece's token, if any. */
  lemma AppendStep(list0: seq<string>, pieces: seq<string>, j: nat, list: seq<string>)
    requires j < |pieces| && list == list0 + NonEmptyTrimmed(pieces[..j])
    ensures var t := TrimSpace(pieces[j]);
      (if |t| == 0 then list else list + [t]) == list0 + NonEmptyTrimmed(pieces[..j + 1])
  {
    var pre, ext := pieces[..j], pieces[..j + 1];
    assert ext[..j] == pre && ext[j] == pieces[j];
    var t := TrimSpace(pieces[j]);
    var last: seq<string> := if |t| == 0 then [] else [t];
    assert NonEmptyTrimmed(ext) == NonEmptyTrimmed(pre) + last;
    Seqs.AppendAssoc(list0, NonEmptyTrimmed(pre), last);
  }

  /** Some variable of a longer prefix is set iff one of the shorter prefix is or the new one is. */
  lemma AnySetExtend(env: map<string, string>, vars: seq<string>, i: nat)
    requires i < |vars|
    ensures AnySet(env, vars[..i + 1]) <==> AnySet(env, vars[..i]) || vars[i] in env
  {
    var a, b := vars[..i], vars[..i + 1];
    if AnySet(env, a) {
      var k :| 0 <= k < i && a[k] in env;
      assert b[k] == a[k];
    }
    if AnySet(env, b) {
      var k :| 0 <= k < i + 1 && b[k] in env;
      if k < i { assert a[k] == b[k]; }
    }
    if vars[i] in env {
      assert b[i] == vars[i];
    }
  }

  // ---------------------------------------------------------------------------
  // The SDK selection

  /** The record `NewVisibleSdk` builds. */
  datatype Sdk = Sdk(name: string, path: string, ldpath: string)

  /** `SdkFromEnvvars`: the SDK name is the variable's value whenever it is
      present (even empty), else the configured default; the two paths are the
      trimmed values when present, else empty. */
  function SdkFromEnvvars(img: CUDA, sdkEnv: string, pathEnv: string, ldPathEnv: string): (r: Sdk)
    requires img.cfg != null
    reads img.cfg
    ensures sdkEnv in img.env ==> r.name == img.env[sdkEnv]
    ensures sdkEnv !in img.env ==> r.name == img.cfg.defaultSdk
    ensures pathEnv in img.env ==> IsTrimOf(r.path, img.env[pathEnv], IsSpace)
    ensures pathEnv !in img.env ==> r.path == ""
    ensures ldPathEnv in img.env ==> IsTrimOf(r.ldpath, img.env[ldPathEnv], InCutSet)
    ensures ldPathEnv !in img.env ==> r.ldpath == ""
  {
    var setSdk := if sdkEnv in img.env then img.env[sdkEnv] else img.cfg.defaultSdk;
    var pathVal := if pathEnv in img.env then TrimSpace(img.env[pathEnv]) else "";
    var ldPathVal := if ldPathEnv in img.env then Trim(img.env[ldPathEnv], InCutSet) else "";
    Sdk(setSdk, pathVal, ldPathVal)
  }
}
