# IX container runtime: the device-injection pipeline, modelled in Dafny

The IX container runtime wraps a low-level OCI runtime such as `runc`. On a
`create` command it rewrites the container's bundle specification before it
hands control to the real runtime. The rewrite adds the host's Iluvatar GPU
device nodes, with their device-cgroup rules, and does so only for the GPUs the
image asks for in `IX_VISIBLE_DEVICES`. It can also bind-mount a cached SDK
directory and extend `PATH` and `LD_LIBRARY_PATH`.

This project models that pipeline:

- the daemon configuration and its defaults (`Settings`);
- the image's environment and the device and SDK selection it implies (`Image`);
- the scan of `/dev` and the native-library enumeration that build the index
  map, and the device list and cgroup rules added to the specification
  (`Graphics`);
- the SDK cache client and the mount and environment it adds (`SdkMod`);
- the file and executable locators (`Lookup`);
- the choice of the low-level runtime, and the load, modify, flush and exec
  order of the wrapper (`Oci`);
- the CDI side: device namers, device-node paths, the character-device
  discoverer and the enumeration that produces CDI device specs (`Ixcdi`);
- the `runtime configure` command (`Configure`);
- the CRI-O TOML configuration edits (`Crio`).

The native IXML library is a class (`Ixml.Library`) whose replies are fixed by
an oracle and whose calls are logged, so the contracts can state the exact
call sequence. The filesystem, the gRPC SDK service, the engine back ends and
the YAML and TOML parsers are likewise parameters, or oracles, whose replies
are given.

Where the prose description of the system and the code differ, the model
follows the code:

- An explicit id in `IX_VISIBLE_DEVICES` is looked up as an enumeration index
  of the native library (`devmap[uint(i)]`), not as a minor number.
- A matching `/dev` entry that is not a block, character or FIFO node aborts
  the whole walk, so the scan yields no map at all. It does not skip only that
  entry.
- `AddRuntime` for CRI-O copies the `runc` template from the `cri` table but
  writes under the `crio` table.
- `log.Fatalf` in the enumeration loops ends the process. Deferred calls do not
  run, so the library is not shut down on that path.

## Model

| member | source | states |
|---|---|---|
| Settings.LevelOf | internal/config/config.go:80-97 | a recognised level name maps to the level with exactly that name; every other string maps to Info |
| Settings.LevelNameRoundTrip | internal/config/config.go:35-41 | each level is reached from its own configuration name, and a recognised name reaches only its own level |
| Settings.PanicIsCaseSensitive | internal/config/config.go:41 | example: only the capitalised "Panic" selects the panic level; "panic" falls back to Info |
| Settings.Defaulted | internal/config/config.go:72-78 | an empty log path becomes the default log file and an empty level becomes "info"; the other fields are kept |
| Settings.DefaultedIdempotent | internal/config/config.go:72-78 | defaulting twice is defaulting once, and neither log field is empty afterwards |
| Settings.ZeroConfigDefaults | internal/config/config.go:122-128 | example: the zero configuration (absent file) logs at Info to the default log path |
| Settings.Config.constructor | internal/config/config.go:44-50 | the record holds the given field values |
| Settings.Config.Update | internal/config/config.go:70-118 | the fields become their defaulted values, the level is that of the defaulted level name, and an error is returned exactly when the log file cannot be opened |
| Settings.Loaded | internal/config/config.go:120-135 | an absent file gives the zero record, any other open failure an error, and an opened file whatever the parser returns |
| Settings.LoadConfig | internal/config/config.go:120-141 | a configuration is returned exactly when there is no error; that happens exactly when loading succeeds and the defaulted log path opens, and the result is a fresh record with the defaulted values |
| Strs.DigitChar | internal/modifier/graphics.go:154 | the character for a digit value is a decimal digit with that value |
| Strs.NatToDecimal | internal/modifier/graphics.go:154 | the decimal text of a natural is non-empty, all digits, and has no leading zero |
| Strs.DecimalRoundTrip | internal/modifier/graphics.go:154 | reading back the decimal text of a natural gives the natural |
| Strs.Itoa | internal/modifier/graphics.go:154 | `strconv.Itoa` text is non-empty and starts with a digit exactly for non-negative values and with '-' exactly for negative ones |
| Strs.ItoaInjective | internal/modifier/graphics.go:154 | distinct integers have distinct `strconv.Itoa` texts |
| Strs.Atoi | internal/modifier/graphics.go:142 | a successful `strconv.Atoi` yields a signed 64-bit value, read from a non-empty digit string with an optional sign |
| Strs.AtoiItoa | internal/modifier/graphics.go:142 | parsing the `Itoa` text of any signed 64-bit value gives that value back |
| Strs.ToUint | internal/modifier/graphics.go:148 | the `uint(i)` conversion keeps non-negative values and maps negative ones to values above the largest signed 64-bit value, below 2^64 |
| Strs.LeadingCount | internal/config/image/sdk_image.go:42 | the count of leading cut characters stops at the first kept character |
| Strs.KeptCount | internal/config/image/sdk_image.go:42 | every character after the kept prefix is a cut character, and the prefix ends in a kept one |
| Strs.Trim | internal/config/image/sdk_image.go:42 | `strings.Trim` returns the infix with no cut character at either end and only cut characters outside it |
| Strs.TrimIsTrim | internal/config/image/sdk_image.go:42 | dropping the leading cut run and then the trailing one is a trim |
| Strs.TrimSpace | internal/config/image/cuda_image.go:60 | `strings.TrimSpace` is the trim over Unicode white space |
| Strs.IndexOf | internal/config/image/builder.go:67 | the index found is the first occurrence of the character |
| Strs.Split | internal/config/image/cuda_image.go:59 | `strings.Split` yields at least one piece, and no piece contains the separator |
| Strs.SplitAtFirst | internal/config/image/cuda_image.go:59 | splitting at the first separator gives the text before it followed by the split of the rest |
| Strs.SplitJoin | internal/config/image/cuda_image.go:59 | joining the pieces with the separator gives back the original string |
| Strs.SplitKeyValue | internal/config/image/builder.go:67 | `SplitN(e, "=", 2)` gives two parts exactly when the entry has an '=', and the key then has none and key "=" value is the entry |
| Strs.SplitKeyValueOfEntry | internal/config/image/builder.go:67 | an entry built as key "=" value, with no '=' in the key, splits back into that key and value |
| Seqs.FirstIndex | internal/oci/runtime_low_level.go:48-56 | a found index satisfies the predicate, and no earlier index from the start position does |
| Seqs.FirstIndexNone | internal/oci/runtime_low_level.go:58 | nothing is found exactly when no element from the start position satisfies the predicate |
| Seqs.FirstIndexIs | internal/oci/runtime_low_level.go:48-56 | the first satisfying index is the one found |
| Image.ParseEnv | internal/config/image/builder.go:63-75 | the environment list is rejected exactly when some entry has no '=' |
| Image.ParseEnvLastWins | internal/config/image/builder.go:66-72 | for a valid list, a key is in the map exactly when some entry names it, and it maps to the value of the last such entry |
| Image.AppendedEntryWins | internal/config/image/builder.go:71 | appending key=value to a valid list sets that key to that value and leaves every other key as it was |
| Image.EnvMapFromList | internal/config/image/builder.go:63-75 | the loop computes the parsed environment, with the error of the first bad entry |
| Image.PrefixError | internal/config/image/builder.go:67-70 | the error names the first entry without '=' |
| Image.ApplyOption | internal/config/image/builder.go:63-98 | an env option fails exactly when its list is invalid; each option changes only its own field |
| Image.LaterEnvOptionReplaces | internal/config/image/builder.go:79-84 | a later env-map option replaces the whole environment left by earlier options |
| Image.NoEnvOptionKeepsEnv | internal/config/image/builder.go:87-98 | mount and config options never fail and never touch the environment |
| Image.InvalidEnvFails | internal/config/image/builder.go:37-41 | an invalid env option aborts the whole option list |
| Image.Build | internal/config/image/builder.go:50-57 | the image carries the builder's environment, mounts and configuration |
| Image.Builder.constructor | internal/config/image/builder.go:36 | a new builder has no environment, no mounts and no configuration |
| Image.Builder.Apply | internal/config/image/builder.go:37-41 | a successful option updates the builder to the option's result; a failing one changes nothing |
| Image.New | internal/config/image/builder.go:35-47 | `New` fails exactly when some option fails, returning the zero image; otherwise it returns the built image with a missing environment replaced by the empty map |
| Image.NilEnvToEmpty | internal/config/image/builder.go:42-44 | a missing environment becomes the empty map, a present one is kept, and nothing else changes |
| Image.NewCUDAImageFromSpec | internal/config/image/cuda_image.go:38-49 | the environment is the process's, or empty without a process; an invalid entry gives an error and the zero image; otherwise the image holds the parsed environment, the spec's mounts and the configuration |
| Image.SpecOptions | internal/config/image/cuda_image.go:44-48 | the three options applied in turn give the parsed environment, the mounts and the configuration, or the environment error |
| Image.NonEmptyTrimmed | internal/config/image/cuda_image.go:59-66 | trimming and dropping the empty pieces never yields more pieces than it was given |
| Image.SelectDevices | internal/config/image/cuda_image.go:70-80 | the selection is never empty; it is "all" when no variable is set and "void" when "void" is requested |
| Image.NoneSetNoTokens | internal/config/image/cuda_image.go:56-68 | with no variable set, no token is requested |
| Image.NonEmptyTrimmedTokens | internal/config/image/cuda_image.go:59-66 | every piece kept is a non-empty token with no comma and no surrounding white space |
| Image.RequestedTokensWellFormed | internal/config/image/cuda_image.go:56-68 | every requested token is non-empty, comma-free and trimmed |
| Image.RequestedTokensAppend | internal/config/image/cuda_image.go:56-68 | the tokens of a list of variables are the tokens of each variable, concatenated in order |
| Image.SelectionIsTokens | internal/config/image/cuda_image.go:80 | when some variable is set, tokens were requested and none is "void", the selection is exactly the requested tokens, in order |
| Image.SetButEmptyIsVoid | internal/config/image/cuda_image.go:75-78 | a variable set to only commas and white space selects "void" |
| Image.BlankTokensExample | internal/config/image/cuda_image.go:59-63 | example: " , " contains no token |
| Image.TrimSpaceExamples | internal/config/image/cuda_image.go:60-63 | example: a lone space trims to the empty string, so such a piece is skipped |
| Image.DevicesFromEnvvars | internal/config/image/cuda_image.go:51-81 | the loop over the variables computes the selection |
| Image.AppendTokens | internal/config/image/cuda_image.go:59-66 | the inner loop appends the trimmed non-empty pieces and marks each one as requested |
| Image.SdkFromEnvvars | internal/config/image/sdk_image.go:27-47 | the SDK name is the image's variable, or the configured default when it is unset; the path is the space-trimmed variable; the library path is the variable trimmed of " \t\n\r"; an unset path variable gives an empty value |
| Graphics.MatchesDeviceNameIff | internal/modifier/graphics.go:86 | a name matches `iluvatar[0-9]` exactly when "iluvatar" followed by a digit occurs somewhere in it |
| Graphics.MatchesDeviceName | internal/modifier/graphics.go:86-91 | a match needs at least nine characters, and a name that starts with `iluvatar` and a digit matches |
| Graphics.DevType | internal/modifier/graphics.go:106-115 | a type letter is produced exactly for block, character and FIFO modes |
| Graphics.DevTypeExamples | internal/modifier/graphics.go:106-115 | example: character, block and FIFO modes give "c", "b" and "p"; directory, regular-file and symlink modes give none |
| Graphics.NodeDevice | internal/modifier/graphics.go:116-125 | the device carries the path, type and numbers, the mode without its type bits, and the owner and group |
| Graphics.Visit | internal/modifier/graphics.go:90-130 | a visit aborts exactly when the entry is selected and is not a device node; it never drops a stored minor, and keeps every entry stored under its own minor number |
| Graphics.Scan | internal/modifier/graphics.go:84-137 | every device in a completed scan is stored under its own minor number |
| Graphics.ScanAbortIsFinal | internal/modifier/graphics.go:113-114 | once the walk is aborted no later entry brings the map back |
| Graphics.ScanSucceedsIff | internal/modifier/graphics.go:90-135 | the scan yields a map exactly when every matching entry is a device node |
| Graphics.ScanLastWins | internal/modifier/graphics.go:127 | a minor is in the map exactly when some scanned node has it, and it maps to the last such node |
| Graphics.SearchDevice | internal/modifier/graphics.go:84-138 | the walk loop computes the scan |
| Graphics.MountPathInjective | internal/modifier/graphics.go:153-155 | distinct mount indices give distinct container paths |
| Graphics.BuildMountDevice | internal/modifier/graphics.go:196-207 | the device is the host device with only its path replaced by the container mount path |
| Graphics.GenerateDevFromString | internal/modifier/graphics.go:140-157 | a device is produced exactly when the id parses and its unsigned conversion is an index of the map; it is that record's device at the mount path |
| Graphics.GenerateFromNumeral | internal/modifier/graphics.go:140-157 | the decimal text of an index in the map resolves to that record's device |
| Graphics.NegativeIdResolvesToNothing | internal/modifier/graphics.go:148-152 | a negative id wraps around to an index beyond any in the map and resolves to nothing |
| Graphics.ResolvedBounds | internal/modifier/graphics.go:187-193 | the positions that resolve are strictly increasing positions of the list |
| Graphics.ResolvedPositions | internal/modifier/graphics.go:187-193 | a position is kept exactly when its id resolves at that mount index |
| Graphics.ExplicitPositions | internal/modifier/graphics.go:187-193 | the i-th explicit device is what the i-th resolving id generates at its own position |
| Graphics.ExplicitPathsDistinct | internal/modifier/graphics.go:187-193 | the explicit devices have pairwise distinct container paths |
| Graphics.HostDevicesAt | internal/modifier/graphics.go:168-170 | the host devices of a key listing are the records' devices, one per key, in order |
| Graphics.DistinctCardinality | internal/modifier/graphics.go:168-170 | a duplicate-free key listing has as many keys as the set it lists |
| Graphics.AllListsEveryRecord | internal/modifier/graphics.go:167-171 | "all" yields one device per record, and exactly the devices of the records |
| Graphics.GetDevice | internal/modifier/graphics.go:159-194 | the devices chosen by `IX_VISIBLE_DEVICES`: none for an empty, "void" or "none" selection, every record's device for "all", otherwise the explicit devices |
| Graphics.DevicesFor | internal/modifier/graphics.go:162-193 | the same case split for a given selection list |
| Graphics.AllDevices | internal/modifier/graphics.go:167-171 | the map's devices, in some order of its keys |
| Graphics.ExplicitDevices | internal/modifier/graphics.go:187-193 | the loop computes the explicit devices |
| Graphics.BuildMapSpec | internal/modifier/graphics.go:210-254 | a built map has exactly the indices below the device count |
| Graphics.QueryCallsNoShutdown | internal/modifier/graphics.go:234-251 | the per-index queries never shut the library down |
| Graphics.BuildMapNeverShutsDown | internal/modifier/graphics.go:216-230 | building the map starts with the initialisation call and never shuts the library down |
| Graphics.QueriesSucceedStep | internal/modifier/graphics.go:236-245 | a successful handle and minor query at the next index extends the run of successful queries |
| Graphics.QueriesFailFrom | internal/modifier/graphics.go:238-245 | one failed query below the count means the loop does not complete |
| Graphics.BuildMap | internal/modifier/graphics.go:210-254 | the result is the map outcome of the oracle, and the library sees exactly the initialisation, count and per-index calls |
| Graphics.IndexLoop | internal/modifier/graphics.go:234-251 | the loop builds the records of all indices, or ends the process at the first failed query, and logs exactly the queries up to that point |
| Graphics.QueryIndex | internal/modifier/graphics.go:235-245 | the handle and minor queries of one index succeed exactly when both replies are SUCCESS; the minor is then the reply's, and the call log advances by those queries |
| Graphics.NewGraphicsModifier | internal/modifier/graphics.go:256-268 | there is no modifier exactly when no map is built, the process ends exactly when the map building does, and otherwise the modifier adds the devices `getdevice` chooses |
| Graphics.CgroupRulesMatch | internal/modifier/graphics.go:72-78 | there is one rule per device, in device order, allowing "rwm" on that device's type and numbers |
| Graphics.WithDevicesStep | internal/modifier/graphics.go:68-80 | adding one more device appends it to the devices and its rule to the cgroup rules |
| Graphics.Modify | internal/modifier/graphics.go:59-82 | with no devices the Linux section is unchanged; otherwise the devices and their rules are appended; process and mounts are never touched and no error is returned |
| SdkMod.SdkServiceClient.constructor | internal/modifier/sdk.go:136-152 | a new client has its reply oracles and no requests sent |
| SdkMod.SdkServiceClient.QueryCache | internal/modifier/sdk.go:52-64 | the reply is the service's, and the query is logged |
| SdkMod.SdkServiceClient.PrepareCache | internal/modifier/sdk.go:66-78 | the reply is the service's, and the prepare request is logged |
| SdkMod.QueryRequest | internal/modifier/sdk.go:53 | the query names the image and has an empty call method |
| SdkMod.PrepareRequest | internal/modifier/sdk.go:67 | the prepare request names the image, has an empty call method and the fixed filter |
| SdkMod.QueryCache | internal/modifier/sdk.go:52-64 | a transport error gives empty fields and the error; otherwise the reply's destination, method and type |
| SdkMod.PrepareCache | internal/modifier/sdk.go:66-78 | on a reply, a pull is needed exactly when the status is not "ok"; on an error, no pull and the error |
| SdkMod.PathValue | internal/modifier/sdk.go:84-87 | the PATH value is the SDK binary directories, a ':' and the image's path |
| SdkMod.LdPathValue | internal/modifier/sdk.go:88-91 | the library path value is the SDK library directories alone, or followed by ':' and the image's library path when it is present |
| SdkMod.SdkMount | internal/modifier/sdk.go:119-127 | the mount is a read-only, nosuid, nodev bind of the cache directory at the fixed destination |
| SdkMod.ModifyOutcome | internal/modifier/sdk.go:93-127 | a mount outcome always has a non-empty cache directory |
| SdkMod.OutcomeCases | internal/modifier/sdk.go:93-127 | the SDK is mounted exactly when the query succeeds with a non-empty destination of type "sdk"; no request is sent exactly when no SDK is named; a pull is requested exactly when the destination is empty; at most two requests are sent |
| SdkMod.Modify | internal/modifier/sdk.go:80-134 | only "no SDK" and "mounted" succeed; when mounted, one mount and the PATH and LD_LIBRARY_PATH entries are appended; otherwise the spec is unchanged; the Linux section is never touched |
| SdkMod.SdkEnvironment | internal/modifier/sdk.go:130-131 | read back as an environment map, the appended entries set PATH and LD_LIBRARY_PATH to the SDK values and leave every other variable alone |
| SdkMod.NewSdkModifier | internal/modifier/sdk.go:136-152 | there is no modifier exactly when the client cannot be built for the configured socket; otherwise a fresh client with the SDK selection read from the image |
| Lookup.AssertFileIff | internal/lookup/file.go:148-159 | a path passes `assertFile` exactly when it exists and is not a directory |
| Lookup.AssertExecutableIff | internal/lookup/executable.go:52-67 | a path passes `assertExecutable` exactly when it passes `assertFile` and some execute bit is set |
| Lookup.AnyExecuteBit | internal/lookup/executable.go:62-64 | a single execute bit, for user, group or other, is enough |
| Lookup.NewBuilder | internal/lookup/file.go:135-145 | the builder is the default configuration with the options applied, and `assertFile` as the filter unless an option sets one |
| Lookup.FilterOfOptions | internal/lookup/file.go:46-68 | the filter in force is the last one an option sets, or the starting one |
| Lookup.DedupProperties | internal/lookup/file.go:73-79 | deduplication keeps exactly the same members, no two equal, and is empty only for an empty list |
| Lookup.JoinAll | internal/lookup/file.go:73-79 | each prefix is joined onto the root, in order |
| Lookup.SearchPrefixes | internal/lookup/file.go:70-86 | there is always at least one search prefix |
| Lookup.GetSearchPrefixes | internal/lookup/file.go:70-86 | the loop computes the search prefixes |
| Lookup.SearchPrefixesOfUnique | internal/lookup/file.go:81-83 | the prefixes are the joined unique prefixes, or the root alone when there are none |
| Lookup.DedupStep | internal/lookup/file.go:73-79 | one step of the loop extends the joined unique prefixes by the new prefix exactly when it was not seen |
| Lookup.SearchPrefixesCover | internal/lookup/file.go:70-86 | no prefixes search the root alone; otherwise there is one search path per distinct prefix and every prefix is searched |
| Lookup.Build | internal/lookup/file.go:88-96 | the locator keeps the configuration and has at least one search prefix |
| Lookup.NewFileLocator | internal/lookup/file.go:131-133 | the file locator is built from the options, with `assertFile` as the default filter |
| Lookup.Take | internal/lookup/file.go:118-121 | a positive count keeps at most that many results, the first ones; otherwise all are kept |
| Lookup.LocateSpec | internal/lookup/file.go:98-129 | an optional locator never fails, and a positive count bounds the number of results |
| Lookup.CandidatesAppend | internal/lookup/file.go:103-108 | the glob matches of two prefix lists are the matches of each, in order |
| Lookup.AcceptedAppend | internal/lookup/file.go:110-122 | filtering two candidate lists is filtering each, in order |
| Lookup.AcceptedIff | internal/lookup/file.go:110-122 | a path is accepted exactly when it is a candidate that passes the filter, and no more paths are accepted than there were candidates |
| Lookup.LocateSound | internal/lookup/file.go:98-129 | a found list holds only candidates that pass the filter, at most the count; the search fails exactly when it is not optional and no candidate passes |
| Lookup.AcceptedStep | internal/lookup/file.go:110-122 | one more candidate extends the accepted list by it exactly when it passes |
| Lookup.TakeExtend | internal/lookup/file.go:118-121 | once the count is reached, later candidates do not change the result |
| Lookup.CandidatesStep | internal/lookup/file.go:103-108 | one more prefix extends the candidates by its glob matches |
| Lookup.Locate | internal/lookup/file.go:98-129 | the search loop stops early at the count and returns the specified result |
| Lookup.VisitCandidates | internal/lookup/file.go:110-122 | the inner loop adds the candidates that pass the filter, and stops as soon as the count is reached |
| Lookup.NewExecutableLocator | internal/lookup/executable.go:36-49 | the executable locator searches the given paths with `assertExecutable` and a count of one |
| Lookup.ExecutableLocatesAtMostOne | internal/lookup/executable.go:36-49 | the executable locator finds a single path, which passes `assertExecutable` |
| Oci.RuntimeLocator | internal/oci/runtime_low_level.go:47 | the runtime locator uses `assertExecutable` and a count of one |
| Oci.FindRuntime | internal/oci/runtime_low_level.go:42-59 | no candidates is an error, and a found runtime is the first target of some candidate that is found |
| Oci.FindRuntimeFirstMatch | internal/oci/runtime_low_level.go:48-56 | the first candidate that is found decides the runtime path, which is executable |
| Oci.FindRuntimeNone | internal/oci/runtime_low_level.go:42-59 | with no candidate found, or none given, the search is an error |
| Oci.FindRuntimeIgnoresLater | internal/oci/runtime_low_level.go:51-54 | candidates after the first one found do not affect the result |
| Oci.NewLowLevelRuntime | internal/oci/runtime_low_level.go:30-38 | no candidates is an error, and a runtime is built only when the search chose a path |
| Oci.NewLowLevelRuntimeUsesChoice | internal/oci/runtime_low_level.go:30-38 | a failed search is an error, and otherwise the runtime is the one built for the chosen path |
| Oci.Trace.constructor | internal/oci/runtime_modifier.go:45-57 | a new trace holds no events |
| Oci.SpecFile.constructor | internal/oci/spec_file.go:34-40 | the spec file holds its given outcomes and trace |
| Oci.SpecFile.LoadSpec | internal/oci/spec_file.go:42-56 | loading gives its outcome and is logged |
| Oci.SpecFile.ModifySpec | internal/oci/spec_file.go:58-61 | modification gives the modifier's outcome and is logged |
| Oci.SpecFile.FlushSpec | internal/oci/spec_file.go:76-90 | flushing gives its outcome and is logged |
| Oci.LowLevelRuntime.constructor | internal/oci/runtime_low_level.go:30-38 | the runtime holds the path and its exec outcome |
| Oci.LowLevelRuntime.ExecRuntime | internal/oci/runtime_modifier.go:56 | the runtime runs with the given arguments, and the run is logged |
| Oci.NewModifyingRuntimeWrapper | internal/oci/runtime_modifier.go:32-43 | the wrapper always delegates to the given runtime |
| Oci.ModifyBundle | internal/oci/runtime_modifier.go:60-76 | the bundle is loaded, modified and flushed in that order, stopping at the first error |
| Oci.ExecWith | internal/oci/runtime_modifier.go:45-57 | the wrapper's error and event sequence are those that the create check and the modify steps imply |
| Oci.CreateOrder | internal/oci/runtime_modifier.go:45-76 | on `create` the events are a prefix of load, modify, flush, exec; the runtime runs exactly when all three steps succeed |
| Oci.PassThrough | internal/oci/runtime_modifier.go:33-35 | without a modifier, or without `create`, only the runtime runs, with its own outcome |
| Oci.ExecArgsUnchanged | internal/oci/runtime_modifier.go:45-57 | every run of the runtime gets the original argument vector, only the last event can be a run (so it runs at most once), and there are at most four events |
| Ixml.Library.constructor | pkg/ixcdi/lib-ixml.go:40-48 | a new library has its oracle and an empty call log |
| Ixml.Library.Initialize | pkg/ixcdi/lib-ixml.go:40-48 | the absolute-path form is used when a path is configured; the reply is the oracle's and the call is logged |
| Ixml.Library.ShutdownLibrary | pkg/ixcdi/lib-ixml.go:50-54 | shutdown returns the oracle's reply and is logged |
| Ixml.Library.DeviceGetCount | vendor/gitee.com/deep-spark/go-ixml/pkg/ixml/device.go:3-8 | the count and status are the oracle's, and the call is logged |
| Ixml.Library.DeviceGetHandleByIndex | vendor/gitee.com/deep-spark/go-ixml/pkg/ixml/device.go:9-13 | the handle is the device of that index, the status is the oracle's, and the call is logged |
| Ixml.Library.GetMinorNumber | vendor/gitee.com/deep-spark/go-ixml/pkg/ixml/device.go:30-38 | the minor number and status are the oracle's for that device, and the call is logged |
| Ixml.Library.GetUUID | vendor/gitee.com/deep-spark/go-ixml/pkg/ixml/device.go:20-28 | the UUID and status are the oracle's for that device, and the call is logged |
| Ixcdi.NewDeviceNamer | pkg/ixcdi/namer.go:35-46 | a namer exists exactly for the strategies "index", "type-index" and "uuid" |
| Ixcdi.GetDeviceName | pkg/ixcdi/namer.go:65-72 | an index namer's name is never empty and starts with its prefix |
| Ixcdi.StrategyNames | pkg/ixcdi/namer.go:65-72 | index names are the decimal index, type-index names add "gpu", uuid names are the UUID; index names ignore the UUID and uuid names ignore the index |
| Ixcdi.IndexNamesDistinct | pkg/ixcdi/namer.go:65-67 | distinct indices get distinct index names under any prefix |
| Ixcdi.NamesOfAppend | pkg/ixcdi/namer.go:74-90 | the names from two namer lists are the names from each, in order |
| Ixcdi.NamesOfMembers | pkg/ixcdi/namer.go:81-84 | a name is produced exactly when some namer gives it as non-empty, and there are never more names than namers |
| Ixcdi.NamesNonEmptyIff | pkg/ixcdi/namer.go:74-90 | no collected name is empty, and none is collected exactly when every namer gives the empty name |
| Ixcdi.DeviceNames | pkg/ixcdi/namer.go:74-90 | a result holds no empty name, and it is the "no names defined" error exactly when every namer gives the empty name |
| Ixcdi.DeviceNamesNonEmpty | pkg/ixcdi/namer.go:86-88 | a successful naming has at least one name, and no namers is an error |
| Ixcdi.GetDeviceNames | pkg/ixcdi/namer.go:74-90 | the loop computes the device names |
| Ixcdi.DevNodePath | pkg/ixcdi/ixml.go:39-40 | the node path is "/dev/iluvatar" followed by the decimal minor number |
| Ixcdi.DevNodePathInjective | pkg/ixcdi/ixml.go:39-40 | distinct minor numbers give distinct node paths |
| Ixcdi.DevNodeOf | pkg/ixcdi/ixml.go:34-41 | a node path exists exactly when the minor query succeeds, and it is the path of that minor |
| Ixcdi.GetDevNodePath | pkg/ixcdi/ixml.go:34-41 | the node path of the device, with exactly one minor query logged |
| Ixcdi.NewCharDeviceDiscoverer | pkg/ixcdi/discover/char_devices.go:26-29 | the discoverer requires exactly the given devices, under root "/" |
| Ixcdi.Devices | pkg/ixcdi/discover/char_devices.go:39-50 | one device per required path, with host and container path both that path, and no error |
| Ixcdi.Mounts | pkg/ixcdi/discover/char_devices.go:33-35 | a character-device discoverer has no mounts and no error |
| Ixcdi.DiscovererOf | pkg/ixcdi/lib-ixml.go:145-157 | the discoverer exists exactly when the node path does, and it requires just that node |
| Ixcdi.NewIxmlDGPUDiscoverer | pkg/ixcdi/lib-ixml.go:145-157 | the discoverer of the device, with exactly one minor query logged |
| Ixcdi.SpecsFor | pkg/ixcdi/lib-ixml.go:109-115 | one CDI device per name, in name order, each with the given edits |
| Ixcdi.GpuDeviceSpecsShape | pkg/ixcdi/lib-ixml.go:94-118 | a device's specs exist exactly when its edits, its UUID and its names do; there is then one per name, in order, with the same edits |
| Ixcdi.EditsFromNode | pkg/ixcdi/lib-ixml.go:121-133 | successful edits imply a successful minor query, and they are the edits of the discoverer for that node |
| Ixcdi.GetGPUDeviceSpecs | pkg/ixcdi/lib-ixml.go:94-118 | the specs of one device, with the calls it makes logged |
| Ixcdi.GatherSucceedsIff | pkg/ixcdi/lib-ixml.go:76-89 | the loop succeeds exactly when every step in the range succeeds |
| Ixcdi.GatherStopsAtFirst | pkg/ixcdi/lib-ixml.go:80-86 | the outcome is that of the first failing step |
| Ixcdi.GatherExtend | pkg/ixcdi/lib-ixml.go:76-89 | one more successful step appends its devices to the gathered ones |
| Ixcdi.StepSucceedsIff | pkg/ixcdi/lib-ixml.go:77-88 | a step succeeds exactly when its device's handle and specs succeed |
| Ixcdi.SpecsFromSucceedsIff | pkg/ixcdi/lib-ixml.go:76-89 | the enumeration succeeds exactly when every device below the count succeeds |
| Ixcdi.SpecsFromInOrder | pkg/ixcdi/lib-ixml.go:76-89 | the specs of the devices are gathered in index order |
| Ixcdi.SpecsFromStopsAt | pkg/ixcdi/lib-ixml.go:80-86 | the first failing device decides the outcome: a failed handle ends the process, a failed spec is an error |
| Ixcdi.SpecsCallsNoShutdown | pkg/ixcdi/lib-ixml.go:76-89 | the enumeration never shuts the library down |
| Ixcdi.GetGPUDeviceSpecsAll | pkg/ixcdi/lib-ixml.go:65-91 | the count query and the enumeration give the specified outcome and calls |
| Ixcdi.DevicesLoop | pkg/ixcdi/lib-ixml.go:76-89 | the loop gathers the specs of all devices, or stops at the first failure, and logs exactly the calls made |
| Ixcdi.VisitDevice | pkg/ixcdi/lib-ixml.go:77-88 | one pass of the loop gives that device's step and logs its calls |
| Ixcdi.PrefixedTwice | pkg/ixcdi/lib-ixml.go:76-89 | prefixing the gathered devices in two steps is prefixing them once |
| Ixcdi.GetAllDeviceSpecs | pkg/ixcdi/lib-ixml.go:36-63 | initialisation, enumeration and the deferred shutdown give the specified outcome and calls |
| Ixcdi.ShutdownOnce | pkg/ixcdi/lib-ixml.go:40-54 | the absolute-path initialisation is used exactly when a path is configured; a failed one is the only call; after a successful one, shutdown is the last call and happens once, unless the process ended |
| Configure.DefaultOptions | cmd/ix-ctk/runtime/configure/configure.go:67-98 | with no flags the runtime is docker, the path is the engine's default, and nothing else is set |
| Configure.ResolveConfigFilePath | cmd/ix-ctk/runtime/configure/configure.go:103-116 | a given path wins, and the result is empty exactly when no path is given and the runtime is none of containerd, crio and docker |
| Configure.ResolveCases | cmd/ix-ctk/runtime/configure/configure.go:107-114 | without a given path, containerd, crio and docker each resolve to their default file |
| Configure.OutputConfigPath | cmd/ix-ctk/runtime/configure/configure.go:118-123 | a dry run writes nowhere; otherwise the output is the resolved path |
| Configure.OutputPathEmptyIff | cmd/ix-ctk/runtime/configure/configure.go:118-123 | the output path is empty exactly on a dry run or when no path resolves |
| Configure.UnsupportedRuntimeRejected | cmd/ix-ctk/runtime/configure/configure.go:129-143 | a runtime other than containerd or docker is an error before any engine step |
| Configure.CrioRejected | cmd/ix-ctk/runtime/configure/configure.go:129-143 | crio has a default file but is still rejected before any engine step |
| Configure.Steps | cmd/ix-ctk/runtime/configure/configure.go:125-175 | a full run is load, register, save, write defaults, in that order |
| Configure.ConfigureRuntime | cmd/ix-ctk/runtime/configure/configure.go:125-175 | the steps taken are the first steps of the full run, and a run that succeeds takes all of them |
| Configure.ConfigureOutcome | cmd/ix-ctk/runtime/configure/configure.go:125-175 | the command succeeds exactly when the runtime is supported and no engine step reports an error; a supported runtime is loaded first from the resolved path, and each save follows the registration |
| Configure.ConfigureErrorNamesStep | cmd/ix-ctk/runtime/configure/configure.go:139-171 | a failure ends at the step that failed; its message names the step and carries the engine's own error (the defaults path for the last step), and an unsupported runtime fails before any step |
| Configure.DefaultsEditDocker | cmd/ix-ctk/runtime/configure/configure.go:125-135 | with no flags the docker daemon configuration at its default path is loaded |
| Crio.DivergesSymmetric | internal/config/engine/crio/crio.go:92-118 | paths that part do so in both directions |
| Crio.DivergesAt | internal/config/engine/crio/crio.go:92-118 | paths that agree up to a position and differ at it part |
| Crio.DivergesExtend | internal/config/engine/crio/crio.go:92-118 | extending a path keeps it apart from a path it already parts from |
| Crio.GetAppend | internal/config/engine/crio/crio.go:52 | a lookup of a path is the lookup of its head, then of the rest in the table found |
| Crio.GetSet | internal/config/engine/crio/crio.go:57-58 | a value stored at a path is read back there |
| Crio.GetSetOther | internal/config/engine/crio/crio.go:57-61 | storing at a path leaves every path that parts from it unchanged |
| Crio.GetDelete | internal/config/engine/crio/crio.go:100-105 | after a delete the path holds nothing |
| Crio.GetDeleteOther | internal/config/engine/crio/crio.go:100-105 | deleting at a path leaves every path that parts from it unchanged |
| Crio.DeleteKeepsAbsent | internal/config/engine/crio/crio.go:105-112 | a delete never makes a missing path present |
| Crio.DeleteKeepsLeaves | internal/config/engine/crio/crio.go:105 | a delete keeps every non-table value outside the deleted subtree |
| Crio.GetUnder | internal/config/engine/crio/crio.go:106-114 | what lies below a path is looked up in the value at that path, and nothing lies below an empty table |
| Crio.PruneKeepsLeaves | internal/config/engine/crio/crio.go:108-112 | deleting an empty table keeps every non-table value |
| Crio.AncestorsNonEmpty | internal/config/engine/crio/crio.go:108-111 | every table on the way to a present path holds the next key, so none is empty |
| Crio.AbsentBelow | internal/config/engine/crio/crio.go:106-114 | a missing path has nothing below it |
| Crio.PathCases | internal/config/engine/crio/crio.go:104-114 | any two key paths part, or one lies at or under the other |
| Crio.DivergesNotUnder | internal/config/engine/crio/crio.go:104-114 | paths that part lie under neither one another |
| Crio.DeleteNoNewLeaves | internal/config/engine/crio/crio.go:100-112 | `DeletePath` never creates or changes a non-table value |
| Crio.PruneStepFrame | internal/config/engine/crio/crio.go:108-112 | deleting an empty table on the runtime's path changes no path off that path |
| Crio.TableAt | internal/config/engine/crio/crio.go:52-58 | the entries of the table at a path, empty when there is no table there |
| Crio.SetChild | internal/config/engine/crio/crio.go:57-58 | `SetPath` under a table adds that one key to it, creating the table when there is none |
| Crio.RuntimeTablePath | internal/config/engine/crio/crio.go:104 | the runtime's table path has four keys and parts from the default-runtime key and from the runc template |
| Crio.RuntimeBase | internal/config/engine/crio/crio.go:52-58 | a new runtime entry starts from the `runc` table when there is one, otherwise from the runtime's existing table |
| Crio.DefaultOf | internal/config/engine/crio/crio.go:85-88 | a non-empty default is the string at the default-runtime key, and that string is the default whenever there is one |
| Crio.CrioConfig.constructor | internal/config/engine/crio/crio.go:27-30 | the configuration holds the given tree |
| Crio.DefaultRuntime | internal/config/engine/crio/crio.go:81-89 | no configuration or no tree gives the empty default; otherwise the default of the tree |
| Crio.AddRuntime | internal/config/engine/crio/crio.go:45-66 | a nil configuration is an error; otherwise the runtime's table is exactly its base table (the runc template, else its old table) with `runtime_path` and `runtime_type` "oci" set, it becomes the default when asked, and every path apart from the runtime's table and the default key is unchanged |
| Crio.AddRuntimeFacts | internal/config/engine/crio/crio.go:52-62 | the successive edits of `AddRuntime` leave the runtime's table, its path and type, the default, the template keys and all unrelated paths as stated |
| Crio.Prune | internal/config/engine/crio/crio.go:104-114 | after pruning no table on the runtime's path is empty; every path not on the way to the runtime's table is unchanged; no value appears, and no non-table value appears or changes |
| Crio.RemoveRuntime | internal/config/engine/crio/crio.go:92-118 | never an error; the tree becomes one `RemovedFrom` allows: the runtime's table gone, a default naming it cleared, every path that parts from the table and lies outside the cleared default unchanged, nothing added, no non-table value created or changed, and no empty table left on the path |
| Crio.RemoveFacts | internal/config/engine/crio/crio.go:98-114 | the two deletes followed by pruning leave a tree that `RemovedFrom` allows |
| Crio.DefaultDeleteFrame | internal/config/engine/crio/crio.go:98-102 | clearing the default changes no path that parts from a runtime's table and lies outside the default key |
| Crio.SameTree | internal/config/engine/crio/crio.go:92-118 | two TOML trees that agree on which paths are present and on every non-table value are equal |
| Crio.LeafOnPath | internal/config/engine/crio/crio.go:104-114 | a non-table value on the runtime's path is the original one in every tree `RemovedFrom` allows |
| Crio.PresentIfChild | internal/config/engine/crio/crio.go:106-114 | a table on the runtime's path that one allowed tree keeps is kept by every other allowed tree |
| Crio.OnPathSame | internal/config/engine/crio/crio.go:104-114 | allowed trees agree on every table on the runtime's path |
| Crio.SameAt | internal/config/engine/crio/crio.go:92-118 | allowed trees agree at every path on its presence and its non-table value |
| Crio.RemovedFromUnique | internal/config/engine/crio/crio.go:92-118 | the result `RemoveRuntime` promises is a single tree: its contract leaves no freedom |
| Crio.DefaultAfterRemove | internal/config/engine/crio/crio.go:98-102 | a default naming the removed runtime is cleared, and any other string default is kept |
| Specs.Spec.constructor | internal/oci/spec.go:33-38 | the specification holds the given process, mounts and Linux section |

## Left out

- The native IXML library, the `/dev` walk with `Lstat`, glob and stat, the SDK
  gRPC service and its socket, the engine back ends, and the YAML and TOML
  parsers are oracles or parameters. Their own behaviour is not modelled.
- `filepath.Join` is the parameter `join`, and its path cleaning is not modelled.
- Log output (`log.Printf`, the logger level and output, the caller formatter)
  is not modelled; only the level chosen is returned.
- `Settings.Config.Update`: returns the level instead of setting it globally.
- `edits.FromDiscoverer`, `NewRuntimeForPath`, `HasCreateSubcommand`,
  `GetPaths`, `modifier.Merge` and the engine's runtime name and default
  runtime path come from files that are not part of this model. They are
  parameters or oracles.
- `VisibleDevices` and `NewVisibleDevices` are not part of this model. A
  selection is the list of its tokens.
- `Ixcdi.GetAllDeviceSpecs`: error messages omit the formatted return codes.
- `Oci.FindRuntimeNone`: the error message does not list the candidates.
- `Configure.ConfigureRuntime`: a back end that returns neither a
  configuration nor an error (the `cfg == nil` test) is not modelled, and
  neither is the log output after a save.
- `Graphics.AllDevices`: Go's map iteration order is not fixed, so the
  contract states the result for some ordering of the keys (`KeyOrder`), not
  for a particular one.
- Nil-pointer dereferences are preconditions of the members that would panic,
  namely `Graphics.Modify`, `SdkMod.Modify`, `Crio.AddRuntime`,
  `Crio.RemoveRuntime`, `Image.SdkFromEnvvars`,
  `Graphics.NewGraphicsModifier` and `SdkMod.NewSdkModifier` (a nil image
  configuration). Panics are not modelled.
- `log.Fatalf` and `log.Fatal` are an `Exited` outcome. The deferred shutdown
  that the process exit skips is not logged.
- `Crio.AddRuntime`: go-toml's `SetPath` replacing a scalar that lies on the
  path, arrays of tables, and the `toml.Load` copy of the template are not
  modelled; the template is copied as a value.
- Some functions of the CRI-O and engine configuration are not modelled:
  `crio.New`, `Config.Save` and the builder. Serialisation needs the TOML
  writer, which is not part of this model.
- Integer widths: the device count and the indices are `nat`. `uint(i)` on a
  parsed id is modelled explicitly (`Strs.ToUint`), since a negative id relies
  on it.
