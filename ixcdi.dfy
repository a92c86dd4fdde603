/** CDI device-spec generation: device names from the naming strategies, the
    device node of a card from its minor number, the character-device
    discoverer, and the per-device specs assembled over the management
    library's enumeration. The library is the call-logging oracle of `Ixml`;
    the conversion of a discoverer into container edits is a parameter. */
module Ixcdi {
  import opened Wrappers
  import opened Strs
  import Ixml
  import Seqs

  // ---------------------------------------------------------------------------
  // Device namers

  const StrategyIndex: string := "index"
  const StrategyTypeIndex: string := "type-index"
  const StrategyUuid: string := "uuid"

  /** A naming strategy: by index (with an optional prefix), or by UUID. */
  datatype DeviceNamer = IndexNamer(gpuPrefix: string) | UuidNamer

  /** `NewDeviceNamer`: the three strategy names; anything else is an error. */
  function NewDeviceNamer(strategy: string): (r: Result<DeviceNamer>)
    ensures r.Ok? <==> strategy == StrategyIndex || strategy == StrategyTypeIndex || strategy == StrategyUuid
  {
    if strategy == StrategyIndex then Ok(IndexNamer(""))
    else if strategy == StrategyTypeIndex then Ok(IndexNamer("gpu"))
    else if strategy == StrategyUuid then Ok(UuidNamer)
    else Err("invalid device name strategy: " + strategy)
  }

  /** `GetDeviceName`: the prefix and the decimal index, or the UUID. Neither
      namer can fail. */
  function GetDeviceName(n: DeviceNamer, i: int, uuid: string): (s: string)
    ensures n.IndexNamer? ==> |s| > |n.gpuPrefix| && s[..|n.gpuPrefix|] == n.gpuPrefix
  {
    match n
    case IndexNamer(prefix) => prefix + Itoa(i)
    case UuidNamer => uuid
  }

  /** What each strategy names a device: `index` its decimal index,
      `type-index` that index after `gpu`, `uuid` its UUID; the index namers
      ignore the UUID and the UUID namer ignores the index. */
  lemma StrategyNames(i: int, j: int, uuid: string, other: string)
    ensures GetDeviceName(NewDeviceNamer(StrategyIndex).value, i, uuid) == Itoa(i)
    ensures GetDeviceName(NewDeviceNamer(StrategyTypeIndex).value, i, uuid) == "gpu" + Itoa(i)
    ensures GetDeviceName(NewDeviceNamer(StrategyUuid).value, i, uuid) == uuid
    ensures forall p :: GetDeviceName(IndexNamer(p), i, uuid) == GetDeviceName(IndexNamer(p), i, other)
    ensures GetDeviceName(UuidNamer, i, uuid) == GetDeviceName(UuidNamer, j, uuid)
  {
    assert "" + Itoa(i) == Itoa(i);
  }

  /** An index namer gives distinct devices distinct names. */
  lemma IndexNamesDistinct(prefix: string, i: int, j: int, u: string, v: string)
    requires i != j
    ensures GetDeviceName(IndexNamer(prefix), i, u) != GetDeviceName(IndexNamer(prefix), j, v)
  {
    if GetDeviceName(IndexNamer(prefix), i, u) == GetDeviceName(IndexNamer(prefix), j, v) {
      var a, b := prefix + Itoa(i), prefix + Itoa(j);
      assert a[|prefix|..] == Itoa(i) && b[|prefix|..] == Itoa(j);
      ItoaInjective(i, j);
    }
  }

  /** The non-empty names the namers give, in namer order, duplicates kept. */
  function NamesOf(namers: seq<DeviceNamer>, i: int, uuid: string): seq<string>
    decreases |namers|
  {
    if |namers| == 0 then []
    else
      var name := GetDeviceName(namers[|namers| - 1], i, uuid);
      NamesOf(namers[..|namers| - 1], i, uuid) + (if name == "" then [] else [name])
  }

  /** What `DeviceNamers.GetDeviceNames` returns. */
  function DeviceNames(namers: seq<DeviceNamer>, i: int, uuid: string): (r: Result<seq<string>>)
    ensures r.Ok? ==> forall x :: x in r.value ==> x != ""
    ensures r.Err? <==> forall k :: 0 <= k < |namers| ==> GetDeviceName(namers[k], i, uuid) == ""
  {
    NamesNonEmptyIff(namers, i, uuid);
    var names := NamesOf(namers, i, uuid);
    if |names| == 0 then Err("no names defined") else Ok(names)
  }

  /** Names follow the namers: joining two namer lists joins their names. */
  lemma {:induction false} NamesOfAppend(namers: seq<DeviceNamer>, more: seq<DeviceNamer>, i: int, uuid: string)
    ensures NamesOf(namers + more, i, uuid) == NamesOf(namers, i, uuid) + NamesOf(more, i, uuid)
    decreases |more|
  {
    if |more| == 0 {
      assert namers + more == namers;
      assert NamesOf(namers, i, uuid) + [] == NamesOf(namers, i, uuid);
    } else {
      var m0 := more[..|more| - 1];
      var all := namers + more;
      var name := GetDeviceName(more[|more| - 1], i, uuid);
      var last: seq<string> := if name == "" then [] else [name];
      assert all[..|all| - 1] == namers + m0 && all[|all| - 1] == more[|more| - 1];
      assert NamesOf(all, i, uuid) == NamesOf(namers + m0, i, uuid) + last;
      assert NamesOf(more, i, uuid) == NamesOf(m0, i, uuid) + last;
      NamesOfAppend(namers, m0, i, uuid);
      Seqs.AppendAssoc(NamesOf(namers, i, uuid), NamesOf(m0, i, uuid), last);
    }
  }

  /** Each name comes from a namer and an empty name is skipped rather than an
      error; there are at most as many names as namers. */
  lemma {:induction false} NamesOfMembers(namers: seq<DeviceNamer>, i: int, uuid: string)
    ensures forall x :: x in NamesOf(namers, i, uuid) <==>
              x != "" && exists k :: 0 <= k < |namers| && GetDeviceName(namers[k], i, uuid) == x
    ensures |NamesOf(namers, i, uuid)| <= |namers|
    decreases |namers|
  {
    if |namers| > 0 {
      var init := namers[..|namers| - 1];
      NamesOfMembers(init, i, uuid);
      forall x | x != "" && exists k :: 0 <= k < |namers| && GetDeviceName(namers[k], i, uuid) == x
        ensures x in NamesOf(namers, i, uuid)
      {
        var k :| 0 <= k < |namers| && GetDeviceName(namers[k], i, uuid) == x;
        if k < |namers| - 1 {
          assert init[k] == namers[k];
        }
      }
      forall x | x in NamesOf(init, i, uuid)
        ensures exists k :: 0 <= k < |namers| && GetDeviceName(namers[k], i, uuid) == x
      {
        var k :| 0 <= k < |init| && GetDeviceName(init[k], i, uuid) == x;
        assert namers[k] == init[k];
      }
    }
  }

  /** No name is empty, and there are none exactly when every namer gives the
      empty name. */
  lemma NamesNonEmptyIff(namers: seq<DeviceNamer>, i: int, uuid: string)
    ensures forall x :: x in NamesOf(namers, i, uuid) ==> x != ""
    ensures |NamesOf(namers, i, uuid)| == 0 <==> forall k :: 0 <= k < |namers| ==> GetDeviceName(namers[k], i, uuid) == ""
  {
    var names := NamesOf(namers, i, uuid);
    NamesOfMembers(namers, i, uuid);
    if |names| > 0 {
      assert names[0] in names;
    }
    if exists k :: 0 <= k < |namers| && GetDeviceName(namers[k], i, uuid) != "" {
      var k :| 0 <= k < |namers| && GetDeviceName(namers[k], i, uuid) != "";
      assert GetDeviceName(namers[k], i, uuid) in names;
    }
  }

  /** A successful result is non-empty, so no namers is an error. */
  lemma DeviceNamesNonEmpty(namers: seq<DeviceNamer>, i: int, uuid: string)
    ensures DeviceNames(namers, i, uuid).Ok? ==> |DeviceNames(namers, i, uuid).value| > 0
    ensures |namers| == 0 ==> DeviceNames(namers, i, uuid).Err?
  {
  }

  /** `DeviceNamers.GetDeviceNames`. */
  method GetDeviceNames(namers: seq<DeviceNamer>, i: int, uuid: string) returns (r: Result<seq<string>>)
    ensures r == DeviceNames(namers, i, uuid)
  {
    var names: seq<string> := [];
    var k := 0;
    while k < |namers|
      invariant 0 <= k <= |namers|
      invariant names == NamesOf(namers[..k], i, uuid)
    {
      assert namers[..k + 1][..k] == namers[..k];
      var name := GetDeviceName(namers[k], i, uuid);
      if name == "" {
        k := k + 1;
        continue;
      }
      names := names + [name];
      k := k + 1;
    }
    assert namers[..k] == namers;
    if |names| == 0 {
      return Err("no names defined");
    }
    return Ok(names);
  }

  // ---------------------------------------------------------------------------
  // The device node of a card

  const DevNodePrefix: string := "/dev/iluvatar"

  /** The device node of the card with the given minor number. */
  function DevNodePath(minor: int): (p: string)
    ensures |p| >= |DevNodePrefix| && p[..|DevNodePrefix|] == DevNodePrefix && p[|DevNodePrefix|..] == Itoa(minor)
  {
    DevNodePrefix + Itoa(minor)
  }

  /** Distinct minor numbers give distinct device nodes. */
  lemma DevNodePathInjective(a: int, b: int)
    requires DevNodePath(a) == DevNodePath(b)
    ensures a == b
  {
    assert Itoa(a) == DevNodePath(a)[|DevNodePrefix|..];
    ItoaInjective(a, b);
  }

  /** What `getDevNodePath` returns for the card: its node path, or an error
      when the minor number query fails. */
  function DevNodeOf(o: Ixml.Oracle, d: Ixml.Device): (r: Result<string>)
    ensures r.Ok? <==> o.minorRet(d.index).1 == Ixml.SUCCESS
    ensures r.Ok? ==> r.value == DevNodePath(o.minorRet(d.index).0)
  {
    var (minor, ret) := o.minorRet(d.index);
    if ret != Ixml.SUCCESS then Err("error getting GPU device minor number") else Ok(DevNodePath(minor))
  }

  /** `toRequiredInfo.getDevNodePath`. */
  method GetDevNodePath(lib: Ixml.Library, d: Ixml.Device) returns (r: Result<string>)
    modifies lib
    ensures r == DevNodeOf(lib.oracle, d)
    ensures lib.calls == old(lib.calls) + [Ixml.GetMinor(d.index)]
  {
    var minor, ret := lib.GetMinorNumber(d);
    if ret != Ixml.SUCCESS {
      return Err("error getting GPU device minor number");
    }
    return Ok(DevNodePath(minor));
  }

  // ---------------------------------------------------------------------------
  // The character-device discoverer

  /** A discovered device node: its path on the host and in the container. */
  datatype DiscoveredDevice = DiscoveredDevice(hostPath: string, path: string)

  /** `charDevices`: a root and the required node paths; it has no locator. */
  datatype CharDevices = CharDevices(root: string, required: seq<string>)

  /** `NewCharDeviceDiscoverer`: the list kept as given, under the root `/`. */
  function NewCharDeviceDiscoverer(devices: seq<string>): (d: CharDevices)
    ensures d.required == devices && d.root == "/"
  {
    CharDevices("/", devices)
  }

  /** `charDevices.Devices`: one device per required path, in order, with the
      same path on the host and in the container; never an error. */
  method Devices(d: CharDevices) returns (devices: seq<DiscoveredDevice>, err: Option<string>)
    ensures err.None?
    ensures |devices| == |d.required|
    ensures forall k :: 0 <= k < |devices| ==> devices[k] == DiscoveredDevice(d.required[k], d.required[k])
  {
    devices := [];
    var k := 0;
    while k < |d.required|
      invariant 0 <= k <= |d.required|
      invariant |devices| == k
      invariant forall j :: 0 <= j < k ==> devices[j] == DiscoveredDevice(d.required[j], d.required[j])
    {
      var mount := d.required[k];
      devices := devices + [DiscoveredDevice(mount, mount)];
      k := k + 1;
    }
    return devices, None;
  }

  /** `charDevices.Mounts`: a list of device nodes contributes no mounts and no error. */
  method Mounts(d: CharDevices) returns (mounts: seq<string>, err: Option<string>)
    ensures mounts == [] && err.None?
  {
    return [], None;
  }

  // ---------------------------------------------------------------------------
  // Per-device specs

  /** The container edits a discoverer converts to; their content is not modelled. */
  datatype ContainerEdits = ContainerEdits(content: string)

  /** A CDI device: a name and the edits it applies. */
  datatype CdiDevice = CdiDevice(name: string, edits: ContainerEdits)

  /** The discoverer for a card: its device node only. */
  function DiscovererOf(o: Ixml.Oracle, d: Ixml.Device): (r: Result<CharDevices>)
    ensures r.Ok? <==> DevNodeOf(o, d).Ok?
    ensures r.Ok? ==> r.value == NewCharDeviceDiscoverer([DevNodeOf(o, d).value])
  {
    var path := DevNodeOf(o, d);
    if path.Err? then Err("error getting device node path: " + path.msg)
    else Ok(NewCharDeviceDiscoverer([path.value]))
  }

  /** `newIxmlDGPUDiscoverer`: a node path error is passed on. */
  method NewIxmlDGPUDiscoverer(lib: Ixml.Library, d: Ixml.Device) returns (r: Result<CharDevices>)
    modifies lib
    ensures r == DiscovererOf(lib.oracle, d)
    ensures lib.calls == old(lib.calls) + [Ixml.GetMinor(d.index)]
  {
    var path := GetDevNodePath(lib, d);
    if path.Err? {
      return Err("error getting device node path: " + path.msg);
    }
    var deviceNodePaths := [path.value];
    return Ok(NewCharDeviceDiscoverer(deviceNodePaths));
  }

  /** `GetGPUDeviceEdits`, with `edits.FromDiscoverer` (not part of this
      model) as the parameter `fromDiscoverer`. */
  function EditsOf(o: Ixml.Oracle, fromDiscoverer: CharDevices -> Result<ContainerEdits>, d: Ixml.Device): Result<ContainerEdits>
  {
    var disc := DiscovererOf(o, d);
    if disc.Err? then Err("failed to create device discoverer: failed to get devicenode: " + disc.msg)
    else
      var e := fromDiscoverer(disc.value);
      if e.Err? then Err("failed to create container edits for device: " + e.msg) else e
  }

  /** One spec per name, each with the same edits. */
  function SpecsFor(names: seq<string>, edits: ContainerEdits): (r: seq<CdiDevice>)
    ensures |r| == |names| && forall k :: 0 <= k < |r| ==> r[k] == CdiDevice(names[k], edits)
    decreases |names|
  {
    if |names| == 0 then [] else SpecsFor(names[..|names| - 1], edits) + [CdiDevice(names[|names| - 1], edits)]
  }

  /** What `GetGPUDeviceSpecs(i, d)` returns. */
  function GpuDeviceSpecs(o: Ixml.Oracle, namers: seq<DeviceNamer>, fromDiscoverer: CharDevices -> Result<ContainerEdits>,
                          i: int, d: Ixml.Device): Result<seq<CdiDevice>>
  {
    var edits := EditsOf(o, fromDiscoverer, d);
    if edits.Err? then Err("failed to get edits for device: " + edits.msg)
    else
      var (uuid, ret) := o.uuidRet(d.index);
      if ret != Ixml.SUCCESS then Err("failed to get uuid for device")
      else
        var names := DeviceNames(namers, i, uuid);
        if names.Err? then Err("failed to get device name: " + names.msg)
        else Ok(SpecsFor(names.value, edits.value))
  }

  /** The library calls `GetGPUDeviceSpecs` makes: the minor number, then the
      UUID once the edits exist. */
  function GpuDeviceCalls(o: Ixml.Oracle, fromDiscoverer: CharDevices -> Result<ContainerEdits>, d: Ixml.Device): seq<Ixml.Call>
  {
    [Ixml.GetMinor(d.index)] + if EditsOf(o, fromDiscoverer, d).Ok? then [Ixml.GetUuid(d.index)] else []
  }

  /** A device's specs exist exactly when its edits, its UUID and its names do;
      then there is one per name, in name order, all with the same edits. */
  lemma GpuDeviceSpecsShape(o: Ixml.Oracle, namers: seq<DeviceNamer>, fromDiscoverer: CharDevices -> Result<ContainerEdits>,
                            i: int, d: Ixml.Device)
    ensures var r := GpuDeviceSpecs(o, namers, fromDiscoverer, i, d);
      r.Ok? <==> EditsOf(o, fromDiscoverer, d).Ok? && o.uuidRet(d.index).1 == Ixml.SUCCESS
                 && DeviceNames(namers, i, o.uuidRet(d.index).0).Ok?
    ensures var r := GpuDeviceSpecs(o, namers, fromDiscoverer, i, d);
      r.Ok? ==>
        var names := NamesOf(namers, i, o.uuidRet(d.index).0);
        && |r.value| == |names| > 0
        && forall k :: 0 <= k < |names| ==> r.value[k] == CdiDevice(names[k], EditsOf(o, fromDiscoverer, d).value)
  {
  }

  /** The edits are `FromDiscoverer` of the discoverer whose one required path
      is the card's device node. */
  lemma EditsFromNode(o: Ixml.Oracle, fromDiscoverer: CharDevices -> Result<ContainerEdits>, d: Ixml.Device)
    requires EditsOf(o, fromDiscoverer, d).Ok?
    ensures o.minorRet(d.index).1 == Ixml.SUCCESS
    ensures EditsOf(o, fromDiscoverer, d) == fromDiscoverer(CharDevices("/", [DevNodePath(o.minorRet(d.index).0)]))
  {
  }

  /** `GetGPUDeviceSpecs`. */
  method GetGPUDeviceSpecs(lib: Ixml.Library, namers: seq<DeviceNamer>, fromDiscoverer: CharDevices -> Result<ContainerEdits>,
                           i: int, d: Ixml.Device) returns (r: Result<seq<CdiDevice>>)
    modifies lib
    ensures r == GpuDeviceSpecs(lib.oracle, namers, fromDiscoverer, i, d)
    ensures lib.calls == old(lib.calls) + GpuDeviceCalls(lib.oracle, fromDiscoverer, d)
  {
    var disc := NewIxmlDGPUDiscoverer(lib, d);
    if disc.Err? {
      return Err("failed to get edits for device: " + ("failed to create device discoverer: failed to get devicenode: " + disc.msg));
    }
    var edits := fromDiscoverer(disc.value);
    if edits.Err? {
      return Err("failed to get edits for device: " + ("failed to create container edits for device: " + edits.msg));
    }
    var uuid, ret := lib.GetUUID(d);
    if ret != Ixml.SUCCESS {
      return Err("failed to get uuid for device");
    }
    var names := GetDeviceNames(namers, i, uuid);
    if names.Err? {
      return Err("failed to get device name: " + names.msg);
    }
    var deviceSpecs: seq<CdiDevice> := [];
    var k := 0;
    while k < |names.value|
      invariant 0 <= k <= |names.value|
      invariant deviceSpecs == SpecsFor(names.value[..k], edits.value)
    {
      assert names.value[..k + 1][..k] == names.value[..k];
      deviceSpecs := deviceSpecs + [CdiDevice(names.value[k], edits.value)];
      k := k + 1;
    }
    assert names.value[..k] == names.value;
    return Ok(deviceSpecs);
  }

  // ---------------------------------------------------------------------------
  // All devices

  /** How the enumeration ends: the process exiting (a handle query failed and
      `log.Fatalf` ran), an error, or the specs. */
  datatype SpecsOutcome = Exited | Failed(msg: string) | Specs(devices: seq<CdiDevice>)

  /** One iteration for device `i`: the process exits when its handle query
      fails, an error when its specs fail, otherwise its specs. */
  function DeviceStep(o: Ixml.Oracle, namers: seq<DeviceNamer>, fromDiscoverer: CharDevices -> Result<ContainerEdits>,
                      i: nat): SpecsOutcome
  {
    if o.handleRet(i) != Ixml.SUCCESS then Exited
    else
      var s := GpuDeviceSpecs(o, namers, fromDiscoverer, i, Ixml.Device(i));
      if s.Err? then Failed("failed to generate CDI edits for GPU devices: " + s.msg) else Specs(s.value)
  }

  /** Prefixing the specs already gathered to how the rest ends. */
  function Prefixed(acc: seq<CdiDevice>, rest: SpecsOutcome): SpecsOutcome
  {
    if rest.Specs? then Specs(acc + rest.devices) else rest
  }

  /** A loop over indices `i..n-1`: the steps' specs concatenated in index
      order, or the first step that does not give specs. */
  function Gather(step: nat -> SpecsOutcome, i: nat, n: nat): SpecsOutcome
    decreases n - i
  {
    if i >= n then Specs([])
    else if !step(i).Specs? then step(i)
    else Prefixed(step(i).devices, Gather(step, i + 1, n))
  }

  /** The iterations of `getGPUDeviceSpecs`, by device index. */
  function Steps(o: Ixml.Oracle, namers: seq<DeviceNamer>, fromDiscoverer: CharDevices -> Result<ContainerEdits>): nat -> SpecsOutcome
  {
    (k: nat) => DeviceStep(o, namers, fromDiscoverer, k)
  }

  /** The loop of `getGPUDeviceSpecs` over devices `i..n-1`. */
  function SpecsFrom(o: Ixml.Oracle, namers: seq<DeviceNamer>, fromDiscoverer: CharDevices -> Result<ContainerEdits>,
                     i: nat, n: nat): SpecsOutcome
  {
    Gather(Steps(o, namers, fromDiscoverer), i, n)
  }

  /** A loop succeeds exactly when every step gives specs. */
  lemma {:induction false} GatherSucceedsIff(step: nat -> SpecsOutcome, i: nat, n: nat)
    ensures Gather(step, i, n).Specs? <==> forall j :: i <= j < n ==> step(j).Specs?
    decreases n - i
  {
    if i < n {
      GatherSucceedsIff(step, i + 1, n);
    }
  }

  /** A loop ends as its first failing step does, whatever follows. */
  lemma {:induction false} GatherStopsAtFirst(step: nat -> SpecsOutcome, i: nat, j: nat, n: nat)
    requires i <= j < n && !step(j).Specs?
    requires forall k :: i <= k < j ==> step(k).Specs?
    ensures Gather(step, i, n) == step(j)
    decreases j - i
  {
    if i < j {
      GatherStopsAtFirst(step, i + 1, j, n);
    }
  }

  /** Extending a successful loop by a successful step appends that step's
      specs after all the earlier ones. */
  lemma {:induction false} GatherExtend(step: nat -> SpecsOutcome, i: nat, n: nat)
    requires i <= n && Gather(step, i, n).Specs? && step(n).Specs?
    ensures Gather(step, i, n + 1) == Specs(Gather(step, i, n).devices + step(n).devices)
    decreases n - i
  {
    if i < n {
      assert step(i).Specs?;
      GatherExtend(step, i + 1, n);
      Seqs.AppendAssoc(step(i).devices, Gather(step, i + 1, n).devices, step(n).devices);
    } else {
      assert Gather(step, n + 1, n + 1) == Specs([]);
      assert step(n).devices + [] == [] + step(n).devices;
    }
  }

  /** Device `k` has a handle and specs. */
  ghost predicate DeviceOk(o: Ixml.Oracle, namers: seq<DeviceNamer>, fromDiscoverer: CharDevices -> Result<ContainerEdits>, k: nat)
  {
    o.handleRet(k) == Ixml.SUCCESS && GpuDeviceSpecs(o, namers, fromDiscoverer, k, Ixml.Device(k)).Ok?
  }

  lemma StepSucceedsIff(o: Ixml.Oracle, namers: seq<DeviceNamer>, fromDiscoverer: CharDevices -> Result<ContainerEdits>, k: nat)
    ensures Steps(o, namers, fromDiscoverer)(k) == DeviceStep(o, namers, fromDiscoverer, k)
    ensures Steps(o, namers, fromDiscoverer)(k).Specs? <==> DeviceOk(o, namers, fromDiscoverer, k)
  {
  }

  /** The loop over the devices succeeds exactly when every device has a
      handle and specs. */
  lemma SpecsFromSucceedsIff(o: Ixml.Oracle, namers: seq<DeviceNamer>, fromDiscoverer: CharDevices -> Result<ContainerEdits>, n: nat)
    ensures SpecsFrom(o, namers, fromDiscoverer, 0, n).Specs? <==> forall k :: 0 <= k < n ==> DeviceOk(o, namers, fromDiscoverer, k)
  {
    var step := Steps(o, namers, fromDiscoverer);
    GatherSucceedsIff(step, 0, n);
    forall k: nat | k < n
      ensures step(k).Specs? <==> DeviceOk(o, namers, fromDiscoverer, k)
    {
      StepSucceedsIff(o, namers, fromDiscoverer, k);
    }
  }

  /** The specs are concatenated in index order: when devices `0..n` all have
      specs, those of device `n` come right after those of the devices before it. */
  lemma SpecsFromInOrder(o: Ixml.Oracle, namers: seq<DeviceNamer>, fromDiscoverer: CharDevices -> Result<ContainerEdits>, n: nat)
    requires forall k :: 0 <= k < n ==> DeviceOk(o, namers, fromDiscoverer, k)
    requires DeviceOk(o, namers, fromDiscoverer, n)
    ensures SpecsFrom(o, namers, fromDiscoverer, 0, n).Specs?
    ensures SpecsFrom(o, namers, fromDiscoverer, 0, n + 1)
         == Specs(SpecsFrom(o, namers, fromDiscoverer, 0, n).devices
                  + GpuDeviceSpecs(o, namers, fromDiscoverer, n, Ixml.Device(n)).value)
  {
    SpecsFromSucceedsIff(o, namers, fromDiscoverer, n);
    StepSucceedsIff(o, namers, fromDiscoverer, n);
    GatherExtend(Steps(o, namers, fromDiscoverer), 0, n);
  }

  /** The loop ends at the first device without a handle or specs, whatever
      follows: the process exits when its handle query failed, and the loop
      returns an error when its specs failed. */
  lemma SpecsFromStopsAt(o: Ixml.Oracle, namers: seq<DeviceNamer>, fromDiscoverer: CharDevices -> Result<ContainerEdits>,
                         j: nat, n: nat)
    requires j < n && !DeviceOk(o, namers, fromDiscoverer, j)
    requires forall k :: 0 <= k < j ==> DeviceOk(o, namers, fromDiscoverer, k)
    ensures SpecsFrom(o, namers, fromDiscoverer, 0, n) == DeviceStep(o, namers, fromDiscoverer, j)
    ensures o.handleRet(j) != Ixml.SUCCESS ==> SpecsFrom(o, namers, fromDiscoverer, 0, n) == Exited
    ensures o.handleRet(j) == Ixml.SUCCESS ==> SpecsFrom(o, namers, fromDiscoverer, 0, n).Failed?
  {
    var step := Steps(o, namers, fromDiscoverer);
    forall k: nat | k <= j
      ensures step(k).Specs? <==> DeviceOk(o, namers, fromDiscoverer, k)
    {
      StepSucceedsIff(o, namers, fromDiscoverer, k);
    }
    GatherStopsAtFirst(step, 0, j, n);
    StepSucceedsIff(o, namers, fromDiscoverer, j);
  }

  /** The library calls of one iteration: the handle, then the device's calls. */
  function StepCalls(o: Ixml.Oracle, fromDiscoverer: CharDevices -> Result<ContainerEdits>, i: nat): seq<Ixml.Call>
  {
    [Ixml.GetHandle(i)] + if o.handleRet(i) != Ixml.SUCCESS then [] else GpuDeviceCalls(o, fromDiscoverer, Ixml.Device(i))
  }

  /** The library calls of the loop over devices `i..n-1`. */
  function SpecsCallsFrom(o: Ixml.Oracle, namers: seq<DeviceNamer>, fromDiscoverer: CharDevices -> Result<ContainerEdits>,
                          i: nat, n: nat): seq<Ixml.Call>
    decreases n - i
  {
    if i >= n then []
    else StepCalls(o, fromDiscoverer, i)
         + if DeviceStep(o, namers, fromDiscoverer, i).Specs? then SpecsCallsFrom(o, namers, fromDiscoverer, i + 1, n) else []
  }

  lemma {:induction false} SpecsCallsNoShutdown(o: Ixml.Oracle, namers: seq<DeviceNamer>,
                                                fromDiscoverer: CharDevices -> Result<ContainerEdits>, i: nat, n: nat)
    ensures Ixml.Shutdown !in SpecsCallsFrom(o, namers, fromDiscoverer, i, n)
    decreases n - i
  {
    if i < n {
      SpecsCallsNoShutdown(o, namers, fromDiscoverer, i + 1, n);
    }
  }

  /** `getGPUDeviceSpecs`: the count, then the loop over the devices. */
  function GpuSpecsOutcome(o: Ixml.Oracle, namers: seq<DeviceNamer>, fromDiscoverer: CharDevices -> Result<ContainerEdits>): SpecsOutcome
  {
    if o.countRet != Ixml.SUCCESS then Failed("failed to get count")
    else SpecsFrom(o, namers, fromDiscoverer, 0, o.count)
  }

  function GpuSpecsCalls(o: Ixml.Oracle, namers: seq<DeviceNamer>, fromDiscoverer: CharDevices -> Result<ContainerEdits>): seq<Ixml.Call>
  {
    [Ixml.GetCount] + if o.countRet != Ixml.SUCCESS then [] else SpecsCallsFrom(o, namers, fromDiscoverer, 0, o.count)
  }

  /** `getGPUDeviceSpecs`. */
  method GetGPUDeviceSpecsAll(lib: Ixml.Library, namers: seq<DeviceNamer>, fromDiscoverer: CharDevices -> Result<ContainerEdits>)
    returns (r: SpecsOutcome)
    modifies lib
    ensures r == GpuSpecsOutcome(lib.oracle, namers, fromDiscoverer)
    ensures lib.calls == old(lib.calls) + GpuSpecsCalls(lib.oracle, namers, fromDiscoverer)
  {
    ghost var o := lib.oracle;
    ghost var c0 := lib.calls;
    var count, ret := lib.DeviceGetCount();
    if ret != Ixml.SUCCESS {
      assert GpuSpecsCalls(o, namers, fromDiscoverer) == [Ixml.GetCount];
      return Failed("failed to get count");
    }
    r := DevicesLoop(lib, namers, fromDiscoverer, count);
    assert GpuSpecsCalls(o, namers, fromDiscoverer) == [Ixml.GetCount] + SpecsCallsFrom(o, namers, fromDiscoverer, 0, count);
    Seqs.AppendAssoc(c0, [Ixml.GetCount], SpecsCallsFrom(o, namers, fromDiscoverer, 0, count));
  }

  /** The loop of `getGPUDeviceSpecs` over the `count` devices. */
  method DevicesLoop(lib: Ixml.Library, namers: seq<DeviceNamer>, fromDiscoverer: CharDevices -> Result<ContainerEdits>, count: nat)
    returns (r: SpecsOutcome)
    modifies lib
    ensures r == SpecsFrom(lib.oracle, namers, fromDiscoverer, 0, count)
    ensures lib.calls == old(lib.calls) + SpecsCallsFrom(lib.oracle, namers, fromDiscoverer, 0, count)
  {
    ghost var o := lib.oracle;
    ghost var c1 := lib.calls;
    ghost var all := SpecsCallsFrom(o, namers, fromDiscoverer, 0, count);
    ghost var whole := SpecsFrom(o, namers, fromDiscoverer, 0, count);
    var deviceSpecs: seq<CdiDevice> := [];
    var i: nat := 0;
    assert deviceSpecs + [] == deviceSpecs;
    while i < count
      invariant 0 <= i <= count
      invariant whole == Prefixed(deviceSpecs, SpecsFrom(o, namers, fromDiscoverer, i, count))
      invariant c1 + all == lib.calls + SpecsCallsFrom(o, namers, fromDiscoverer, i, count)
    {
      ghost var prev := lib.calls;
      var step := VisitDevice(lib, namers, fromDiscoverer, i);
      StepSucceedsIff(o, namers, fromDiscoverer, i);
      if !step.Specs? {
        assert SpecsCallsFrom(o, namers, fromDiscoverer, i, count) == StepCalls(o, fromDiscoverer, i) + [];
        return step;
      }
      ghost var rest := SpecsCallsFrom(o, namers, fromDiscoverer, i + 1, count);
      Seqs.AppendAssoc(prev, StepCalls(o, fromDiscoverer, i), rest);
      PrefixedTwice(deviceSpecs, step.devices, SpecsFrom(o, namers, fromDiscoverer, i + 1, count));
      deviceSpecs := deviceSpecs + step.devices;
      i := i + 1;
    }
    assert deviceSpecs + [] == deviceSpecs;
    assert lib.calls + [] == lib.calls;
    return Specs(deviceSpecs);
  }

  /** The body of the loop of `getGPUDeviceSpecs` for device `i`. */
  method VisitDevice(lib: Ixml.Library, namers: seq<DeviceNamer>, fromDiscoverer: CharDevices -> Result<ContainerEdits>, i: nat)
    returns (r: SpecsOutcome)
    modifies lib
    ensures r == DeviceStep(lib.oracle, namers, fromDiscoverer, i)
    ensures lib.calls == old(lib.calls) + StepCalls(lib.oracle, fromDiscoverer, i)
  {
    var device, ret := lib.DeviceGetHandleByIndex(i);
    if ret != Ixml.SUCCESS {
      assert StepCalls(lib.oracle, fromDiscoverer, i) == [Ixml.GetHandle(i)];
      return Exited;
    }
    var specsForDevice := GetGPUDeviceSpecs(lib, namers, fromDiscoverer, i, device);
    if specsForDevice.Err? {
      return Failed("failed to generate CDI edits for GPU devices: " + specsForDevice.msg);
    }
    return Specs(specsForDevice.value);
  }

  /** Prefixing twice is prefixing the concatenation. */
  lemma PrefixedTwice(a: seq<CdiDevice>, b: seq<CdiDevice>, x: SpecsOutcome)
    ensures Prefixed(a, Prefixed(b, x)) == Prefixed(a + b, x)
  {
    if x.Specs? {
      assert a + (b + x.devices) == a + b + x.devices;
    }
  }

  /** What `GetAllDeviceSpecs` returns: an initialisation error, or how the
      enumeration ends. */
  function AllSpecsOutcome(o: Ixml.Oracle, libraryPath: string, namers: seq<DeviceNamer>,
                           fromDiscoverer: CharDevices -> Result<ContainerEdits>): SpecsOutcome
  {
    if Ixml.InitReply(o, libraryPath) != Ixml.SUCCESS then Failed("failed to initialize ixml")
    else GpuSpecsOutcome(o, namers, fromDiscoverer)
  }

  /** Its library calls: the initialisation form the path selects; after a
      successful one the enumeration and then `Shutdown`, which the deferred
      call runs unless the process has exited. */
  function AllSpecsCalls(o: Ixml.Oracle, libraryPath: string, namers: seq<DeviceNamer>,
                         fromDiscoverer: CharDevices -> Result<ContainerEdits>): seq<Ixml.Call>
  {
    [Ixml.InitCall(libraryPath)]
    + if Ixml.InitReply(o, libraryPath) != Ixml.SUCCESS then []
      else GpuSpecsCalls(o, namers, fromDiscoverer)
           + if GpuSpecsOutcome(o, namers, fromDiscoverer).Exited? then [] else [Ixml.Shutdown]
  }

  /** `GetAllDeviceSpecs`. */
  method GetAllDeviceSpecs(lib: Ixml.Library, libraryPath: string, namers: seq<DeviceNamer>,
                           fromDiscoverer: CharDevices -> Result<ContainerEdits>) returns (r: SpecsOutcome)
    modifies lib
    ensures r == AllSpecsOutcome(lib.oracle, libraryPath, namers, fromDiscoverer)
    ensures lib.calls == old(lib.calls) + AllSpecsCalls(lib.oracle, libraryPath, namers, fromDiscoverer)
  {
    ghost var o := lib.oracle;
    ghost var c0 := lib.calls;
    var ret := lib.Initialize(libraryPath);
    if ret != Ixml.SUCCESS {
      assert AllSpecsCalls(o, libraryPath, namers, fromDiscoverer) == [Ixml.InitCall(libraryPath)];
      return Failed("failed to initialize ixml");
    }
    ghost var gc := GpuSpecsCalls(o, namers, fromDiscoverer);
    ghost var tail: seq<Ixml.Call> := if GpuSpecsOutcome(o, namers, fromDiscoverer).Exited? then [] else [Ixml.Shutdown];
    assert AllSpecsCalls(o, libraryPath, namers, fromDiscoverer) == [Ixml.InitCall(libraryPath)] + (gc + tail);
    r := GetGPUDeviceSpecsAll(lib, namers, fromDiscoverer);
    assert lib.calls == c0 + [Ixml.InitCall(libraryPath)] + gc;
    if !r.Exited? {
      var _ := lib.ShutdownLibrary();
      assert lib.calls == c0 + [Ixml.InitCall(libraryPath)] + gc + tail;
    } else {
      assert lib.calls == c0 + [Ixml.InitCall(libraryPath)] + gc + tail;
    }
    Seqs.AppendAssoc(c0 + [Ixml.InitCall(libraryPath)], gc, tail);
    Seqs.AppendAssoc(c0, [Ixml.InitCall(libraryPath)], gc + tail);
  }

  /** The initialisation uses the absolute-path form exactly when a library
      path is configured; after a successful one, `Shutdown` is called once, as
      the last call, unless the process exited; a failed one shuts nothing down. */
  lemma ShutdownOnce(o: Ixml.Oracle, libraryPath: string, namers: seq<DeviceNamer>,
                     fromDiscoverer: CharDevices -> Result<ContainerEdits>)
    ensures var calls := AllSpecsCalls(o, libraryPath, namers, fromDiscoverer);
      && calls[0] == (if libraryPath != "" then Ixml.AbsInit(libraryPath) else Ixml.Init)
      && (Ixml.InitReply(o, libraryPath) != Ixml.SUCCESS ==> calls == [calls[0]])
      && (Ixml.InitReply(o, libraryPath) == Ixml.SUCCESS && !AllSpecsOutcome(o, libraryPath, namers, fromDiscoverer).Exited? ==>
            calls[|calls| - 1] == Ixml.Shutdown && Ixml.Shutdown !in calls[..|calls| - 1])
  {
    var calls := AllSpecsCalls(o, libraryPath, namers, fromDiscoverer);
    if Ixml.InitReply(o, libraryPath) == Ixml.SUCCESS && !AllSpecsOutcome(o, libraryPath, namers, fromDiscoverer).Exited? {
      if o.countRet == Ixml.SUCCESS {
        SpecsCallsNoShutdown(o, namers, fromDiscoverer, 0, o.count);
      }
      var body := [Ixml.InitCall(libraryPath)] + GpuSpecsCalls(o, namers, fromDiscoverer);
      assert calls == body + [Ixml.Shutdown];
      assert calls[..|calls| - 1] == body;
    }
  }
}
