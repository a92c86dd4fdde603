/** The graphics modifier: it scans the device nodes under `/dev`, joins the
    library's enumeration to them by minor number, turns the visible-device
    selection into device entries renamed `/dev/iluvatar<k>`, and appends those
    entries and matching cgroup rules to the container's specification. */
module Graphics {
  import opened Wrappers
  import opened Strs
  import Specs
  import Image
  import Ixml

  const VisibleDevicesEnvvar: string := "IX_VISIBLE_DEVICES"
  const DeviceName: string := "iluvatar"
  const DevicePath: string := "/dev"

  const BlockDevice: string := "b"
  const CharDevice: string := "c"
  const FifoDevice: string := "p"

  /** The file-type bits of a mode and the three device types among them. */
  const S_IFMT: bv32 := 0xF000
  const S_IFBLK: bv32 := 0x6000
  const S_IFCHR: bv32 := 0x2000
  const S_IFIFO: bv32 := 0x1000

  // ---------------------------------------------------------------------------
  // The scan of /dev

  /** What `Lstat` reports of a node: its mode, the two halves of its device
      number, and its owner. */
  datatype Stat = Stat(mode: bv32, major: nat, minor: nat, uid: nat, gid: nat)

  /** One visit of the walk: the path, its base name, whether the visit itself
      succeeded, and what `Lstat` on the path gives (`None` when it fails). */
  datatype WalkEntry = WalkEntry(path: string, name: string, visitOk: bool, lstat: Option<Stat>)

  /** The pattern `iluvatar[0-9]` at position `i` of `name`. */
  predicate MatchAt(name: string, i: int)
  {
    0 <= i && i + 9 <= |name| && name[i..i + 8] == DeviceName && IsDigit(name[i + 8])
  }

  /** The unanchored match of `iluvatar[0-9]`: anywhere in the name. */
  function MatchesDeviceName(name: string): (b: bool)
    ensures b ==> |name| >= 9
    ensures |name| >= 9 && name[..8] == DeviceName && IsDigit(name[8]) ==> b
    decreases |name|
  {
    |name| >= 9 && ((name[..8] == DeviceName && IsDigit(name[8])) || MatchesDeviceName(name[1..]))
  }

  lemma {:induction false} MatchesDeviceNameIff(name: string)
    ensures MatchesDeviceName(name) <==> exists i :: MatchAt(name, i)
    decreases |name|
  {
    if |name| >= 9 {
      MatchesDeviceNameIff(name[1..]);
      if name[..8] == DeviceName && IsDigit(name[8]) {
        assert name[0..8] == name[..8];
        assert MatchAt(name, 0);
      }
      if MatchesDeviceName(name[1..]) {
        var j :| MatchAt(name[1..], j);
        assert name[j + 1..j + 9] == name[1..][j..j + 8];
        assert MatchAt(name, j + 1);
      }
      if exists i :: MatchAt(name, i) {
        var i :| MatchAt(name, i);
        if i == 0 {
          assert name[..8] == name[0..8];
          assert name[..8] == DeviceName && IsDigit(name[8]);
        } else {
          assert name[1..][i - 1..i + 7] == name[i..i + 8];
          assert name[1..][i - 1 + 8] == name[i + 8];
          assert MatchAt(name[1..], i - 1);
        }
        assert MatchesDeviceName(name);
      }
    } else {
      assert forall i :: !MatchAt(name, i);
    }
  }

  /** The device type of a mode, or `None` for a node that is not a block,
      character or FIFO device. */
  function DevType(mode: bv32): (t: Option<string>)
    ensures t.Some? <==> (mode & S_IFMT == S_IFBLK || mode & S_IFMT == S_IFCHR || mode & S_IFMT == S_IFIFO)
  {
    var f := mode & S_IFMT;
    if f == S_IFBLK then Some(BlockDevice)
    else if f == S_IFCHR then Some(CharDevice)
    else if f == S_IFIFO then Some(FifoDevice)
    else None
  }

  /** A character device, a block device and a FIFO are classified; a
      directory, a regular file and a symbolic link are not devices. */
  lemma DevTypeExamples()
    ensures DevType(0x21b6) == Some("c")
    ensures DevType(0x61b0) == Some("b")
    ensures DevType(0x11a4) == Some("p")
    ensures DevType(0x41ed) == None && DevType(0x81a4) == None && DevType(0xa1ff) == None
  {
  }

  /** The device entry for a scanned node: the permission bits without the
      file type, and the owner. */
  function NodeDevice(path: string, devType: string, st: Stat): (d: Specs.LinuxDevice)
    ensures d.path == path && d.devType == devType && d.major == st.major && d.minor == st.minor
    ensures d.fileMode.Some? && d.fileMode.value & S_IFMT == 0
    ensures d.uid == Some(st.uid) && d.gid == Some(st.gid)
  {
    Specs.LinuxDevice(path, devType, st.major, st.minor, Some(st.mode & !S_IFMT), Some(st.uid), Some(st.gid))
  }

  /** The visits the walk callback acts on: successful, with a matching name. */
  predicate Selected(e: WalkEntry)
  {
    e.visitOk && MatchesDeviceName(e.name)
  }

  predicate IsDeviceNode(e: WalkEntry)
  {
    e.lstat.Some? && DevType(e.lstat.value.mode).Some?
  }

  /** One visit: an unselected entry changes nothing; a selected one that cannot
      be stat'ed or is not a device aborts the walk; otherwise its entry is
      stored under its minor number, replacing any earlier one. */
  function Visit(m: map<int, Specs.LinuxDevice>, e: WalkEntry): (r: Option<map<int, Specs.LinuxDevice>>)
    ensures r.None? <==> Selected(e) && !IsDeviceNode(e)
    ensures r.Some? ==> m.Keys <= r.value.Keys
    ensures r.Some? && (forall k :: k in m ==> m[k].minor == k) ==> forall k :: k in r.value ==> r.value[k].minor == k
  {
    if !Selected(e) then Some(m)
    else if !IsDeviceNode(e) then None
    else
      var st := e.lstat.value;
      Some(m[st.minor := NodeDevice(e.path, DevType(st.mode).value, st)])
  }

  /** What `searchDevice` returns for a walk: `None` (the nil map) when the walk
      was aborted, otherwise the nodes keyed by minor number. */
  function Scan(entries: seq<WalkEntry>): (r: Option<map<int, Specs.LinuxDevice>>)
    ensures r.Some? ==> forall k :: k in r.value ==> r.value[k].minor == k
    decreases |entries|
  {
    if |entries| == 0 then Some(map[])
    else
      match Scan(entries[..|entries| - 1])
      case None => None
      case Some(m) => Visit(m, entries[|entries| - 1])
  }

  /** Once aborted, the walk stays aborted. */
  lemma {:induction false} ScanAbortIsFinal(entries: seq<WalkEntry>, i: nat)
    requires i <= |entries| && Scan(entries[..i]).None?
    ensures Scan(entries).None?
    decreases |entries|
  {
    if i < |entries| {
      var init := entries[..|entries| - 1];
      assert init[..i] == entries[..i];
      ScanAbortIsFinal(init, i);
    } else {
      assert entries[..i] == entries;
    }
  }

  /** The scan succeeds exactly when every selected entry is a device node:
      any other selected entry aborts the whole walk. */
  lemma {:induction false} ScanSucceedsIff(entries: seq<WalkEntry>)
    ensures Scan(entries).Some? <==> forall k :: 0 <= k < |entries| && Selected(entries[k]) ==> IsDeviceNode(entries[k])
    decreases |entries|
  {
    if |entries| > 0 {
      var init := entries[..|entries| - 1];
      assert forall k :: 0 <= k < |init| ==> init[k] == entries[k];
      ScanSucceedsIff(init);
    }
  }

  /** The node of the last selected entry with the given minor number: the
      reference reading of "a later node overwrites an earlier one". */
  function LastNodeWithMinor(entries: seq<WalkEntry>, minor: int): Option<Specs.LinuxDevice>
    decreases |entries|
  {
    if |entries| == 0 then None
    else
      var e := entries[|entries| - 1];
      if Selected(e) && IsDeviceNode(e) && e.lstat.value.minor == minor then
        Some(NodeDevice(e.path, DevType(e.lstat.value.mode).value, e.lstat.value))
      else LastNodeWithMinor(entries[..|entries| - 1], minor)
  }

  /** A successful scan holds, under each minor number, the node of the last
      entry with that minor, and no other keys. */
  lemma {:induction false} ScanLastWins(entries: seq<WalkEntry>, minor: int)
    requires Scan(entries).Some?
    ensures minor in Scan(entries).value <==> LastNodeWithMinor(entries, minor).Some?
    ensures minor in Scan(entries).value ==> Scan(entries).value[minor] == LastNodeWithMinor(entries, minor).value
    decreases |entries|
  {
    if |entries| > 0 {
      ScanLastWins(entries[..|entries| - 1], minor);
    }
  }

  /** The loop of `searchDevice`: the walk stops at the first error and the nil
      map is returned. */
  method SearchDevice(entries: seq<WalkEntry>) returns (r: Option<map<int, Specs.LinuxDevice>>)
    ensures r == Scan(entries)
  {
    var ret: map<int, Specs.LinuxDevice> := map[];
    var i := 0;
    while i < |entries|
      invariant 0 <= i <= |entries|
      invariant Scan(entries[..i]) == Some(ret)
    {
      var e := entries[i];
      assert entries[..i + 1][..i] == entries[..i];
      if Selected(e) {
        if e.lstat.None? {
          ScanAbortIsFinal(entries, i + 1);
          return None;
        }
        var st := e.lstat.value;
        var devType := DevType(st.mode);
        if devType.None? {
          ScanAbortIsFinal(entries, i + 1);
          return None;
        }
        ret := ret[st.minor := NodeDevice(e.path, devType.value, st)];
      }
      i := i + 1;
    }
    assert entries[..i] == entries;
    return Some(ret);
  }

  // ---------------------------------------------------------------------------
  // Turning a selection into device entries

  /** A record of the enumeration: the scanned node, the library handle and the index. */
  datatype IndexDevice = IndexDevice(dev: Specs.LinuxDevice, device: Ixml.Device, index: nat)

  /** The path a selected device gets inside the container. */
  function MountPath(index: int): string
  {
    DevicePath + "/" + DeviceName + Itoa(index)
  }

  /** Distinct positions give distinct container paths. */
  lemma MountPathInjective(a: int, b: int)
    requires MountPath(a) == MountPath(b)
    ensures a == b
  {
    var p := DevicePath + "/" + DeviceName;
    assert MountPath(a)[|p|..] == Itoa(a);
    assert MountPath(b)[|p|..] == Itoa(b);
    ItoaInjective(a, b);
  }

  /** `buildMountDevice`: the entry with only its path replaced. */
  function BuildMountDevice(index: int, dev: Specs.LinuxDevice): (r: Specs.LinuxDevice)
    ensures r.path == MountPath(index)
    ensures r.(path := dev.path) == dev
  {
    dev.(path := MountPath(index))
  }

  /** `generate_dev_from_string`: the id is parsed as an `int` and converted
      to `uint` before the lookup; a non-numeral or a missing key gives nil. */
  function GenerateDevFromString(devmap: map<nat, IndexDevice>, val: string, mountIdx: int): (r: Option<Specs.LinuxDevice>)
    ensures r.Some? <==> Atoi(val).Ok? && ToUint(Atoi(val).value) in devmap
    ensures r.Some? ==> r.value == BuildMountDevice(mountIdx, devmap[ToUint(Atoi(val).value)].dev)
  {
    match Atoi(val)
    case Err(_) => None
    case Ok(i) =>
      var u := ToUint(i);
      if u in devmap then
        var ret := devmap[u].dev;
        Some(ret.(path := DevicePath + "/" + DeviceName + Itoa(mountIdx)))
      else None
  }

  /** The decimal numeral of a key resolves to that key's record. */
  lemma GenerateFromNumeral(devmap: map<nat, IndexDevice>, k: nat, mountIdx: int)
    requires k in devmap && k <= MaxInt64
    ensures GenerateDevFromString(devmap, Itoa(k), mountIdx) == Some(BuildMountDevice(mountIdx, devmap[k].dev))
  {
    AtoiItoa(k);
  }

  /** A negative id wraps around to a huge unsigned key, so it resolves to
      nothing while the keys stay below 2^63. */
  lemma NegativeIdResolvesToNothing(devmap: map<nat, IndexDevice>, val: string, mountIdx: int)
    requires forall k :: k in devmap ==> k <= MaxInt64
    requires Atoi(val).Ok? && Atoi(val).value < 0
    ensures GenerateDevFromString(devmap, val, mountIdx) == None
  {
  }

  function OptionToSeq<T>(o: Option<T>): seq<T>
  {
    if o.Some? then [o.value] else []
  }

  /** The explicit-id loop of `getdevice`: the id at position `k` is resolved
      with path index `k`, and an id that does not resolve is skipped. */
  function Explicit(devmap: map<nat, IndexDevice>, list: seq<string>): seq<Specs.LinuxDevice>
    decreases |list|
  {
    if |list| == 0 then []
    else Explicit(devmap, list[..|list| - 1])
         + OptionToSeq(GenerateDevFromString(devmap, list[|list| - 1], |list| - 1))
  }

  /** The positions of `list` whose ids resolve, in increasing order. */
  function Resolved(devmap: map<nat, IndexDevice>, list: seq<string>): seq<nat>
    decreases |list|
  {
    if |list| == 0 then []
    else
      var k := |list| - 1;
      Resolved(devmap, list[..k]) + (if GenerateDevFromString(devmap, list[k], k).Some? then [k] else [])
  }

  /** The resolving positions lie inside the list and increase. */
  lemma {:induction false} ResolvedBounds(devmap: map<nat, IndexDevice>, list: seq<string>)
    ensures forall i :: 0 <= i < |Resolved(devmap, list)| ==> Resolved(devmap, list)[i] < |list|
    ensures forall i, j :: 0 <= i < j < |Resolved(devmap, list)| ==> Resolved(devmap, list)[i] < Resolved(devmap, list)[j]
    decreases |list|
  {
    if |list| > 0 {
      var k := |list| - 1;
      ResolvedBounds(devmap, list[..k]);
      var ps0, tail := Resolved(devmap, list[..k]), if GenerateDevFromString(devmap, list[k], k).Some? then [k] else [];
      assert Resolved(devmap, list) == ps0 + tail;
      assert forall i :: 0 <= i < |ps0| ==> ps0[i] < k;
    }
  }

  /** A position is among the resolving positions exactly when its id resolves,
      so an id that does not resolve leaves a gap. */
  lemma {:induction false} ResolvedPositions(devmap: map<nat, IndexDevice>, list: seq<string>)
    ensures forall k :: 0 <= k < |list| ==> (GenerateDevFromString(devmap, list[k], k).Some? <==> k in Resolved(devmap, list))
    decreases |list|
  {
    if |list| > 0 {
      var k := |list| - 1;
      var init := list[..k];
      ResolvedPositions(devmap, init);
      ResolvedBounds(devmap, init);
      assert forall j :: 0 <= j < k ==> init[j] == list[j];
      var ps0, tail := Resolved(devmap, init), if GenerateDevFromString(devmap, list[k], k).Some? then [k] else [];
      assert Resolved(devmap, list) == ps0 + tail;
      assert k !in ps0;
    }
  }

  /** The i-th explicit entry is what the id at the i-th resolving position
      gives with that position as its path index. */
  lemma {:induction false} ExplicitPositions(devmap: map<nat, IndexDevice>, list: seq<string>)
    ensures var r, ps := Explicit(devmap, list), Resolved(devmap, list);
      && |r| == |ps|
      && (forall i :: 0 <= i < |ps| ==> ps[i] < |list| && GenerateDevFromString(devmap, list[ps[i]], ps[i]) == Some(r[i]))
    decreases |list|
  {
    if |list| > 0 {
      var k := |list| - 1;
      var init := list[..k];
      ExplicitPositions(devmap, init);
      ResolvedBounds(devmap, init);
      var r0, ps0 := Explicit(devmap, init), Resolved(devmap, init);
      assert forall i :: 0 <= i < |ps0| ==> init[ps0[i]] == list[ps0[i]];
    }
  }

  /** The explicit entries have pairwise distinct container paths. */
  lemma ExplicitPathsDistinct(devmap: map<nat, IndexDevice>, list: seq<string>)
    ensures var r := Explicit(devmap, list);
      forall i, j :: 0 <= i < j < |r| ==> r[i].path != r[j].path
  {
    ExplicitPositions(devmap, list);
    ResolvedBounds(devmap, list);
    var r, ps := Explicit(devmap, list), Resolved(devmap, list);
    forall i, j | 0 <= i < j < |r|
      ensures r[i].path != r[j].path
    {
      assert r[i].path == MountPath(ps[i]) && r[j].path == MountPath(ps[j]);
      if r[i].path == r[j].path {
        MountPathInjective(ps[i], ps[j]);
      }
    }
  }

  /** `ks` lists every key of `devmap` exactly once: one iteration order of the map. */
  ghost predicate KeyOrder(ks: seq<nat>, devmap: map<nat, IndexDevice>)
  {
    && (forall i, j :: 0 <= i < j < |ks| ==> ks[i] != ks[j])
    && (forall k :: k in devmap <==> k in ks)
  }

  /** The host entries of the records, in the order `ks` visits them. */
  function HostDevices(devmap: map<nat, IndexDevice>, ks: seq<nat>): seq<Specs.LinuxDevice>
    requires forall k :: k in ks ==> k in devmap
    decreases |ks|
  {
    if |ks| == 0 then []
    else HostDevices(devmap, ks[..|ks| - 1]) + [devmap[ks[|ks| - 1]].dev]
  }

  lemma {:induction false} HostDevicesAt(devmap: map<nat, IndexDevice>, ks: seq<nat>)
    requires forall k :: k in ks ==> k in devmap
    ensures |HostDevices(devmap, ks)| == |ks|
    ensures forall i :: 0 <= i < |ks| ==> HostDevices(devmap, ks)[i] == devmap[ks[i]].dev
    decreases |ks|
  {
    if |ks| > 0 {
      HostDevicesAt(devmap, ks[..|ks| - 1]);
    }
  }

  lemma {:induction false} DistinctCardinality(ks: seq<nat>, s: set<nat>)
    requires forall i, j :: 0 <= i < j < |ks| ==> ks[i] != ks[j]
    requires forall k :: k in s <==> k in ks
    ensures |s| == |ks|
    decreases |ks|
  {
    if |ks| > 0 {
      var x := ks[|ks| - 1];
      var init := ks[..|ks| - 1];
      assert forall k :: k in s - {x} <==> k in init by {
        forall k ensures k in s - {x} <==> k in init {
          if k in init {
            var j :| 0 <= j < |init| && init[j] == k;
            assert ks[j] == k;
          }
          if k in ks && k != x {
            var j :| 0 <= j < |ks| && ks[j] == k;
            assert j < |ks| - 1 && init[j] == k;
          }
        }
      }
      DistinctCardinality(init, s - {x});
    }
  }

  /** Selecting `all` lists every record's host entry exactly once, unrenamed,
      in some order of the map. */
  lemma AllListsEveryRecord(devmap: map<nat, IndexDevice>, ks: seq<nat>)
    requires KeyOrder(ks, devmap)
    ensures |HostDevices(devmap, ks)| == |devmap|
    ensures forall k :: k in devmap ==> devmap[k].dev in HostDevices(devmap, ks)
    ensures forall d :: d in HostDevices(devmap, ks) ==> exists k :: k in devmap && devmap[k].dev == d
  {
    HostDevicesAt(devmap, ks);
    DistinctCardinality(ks, devmap.Keys);
    forall k | k in devmap
      ensures devmap[k].dev in HostDevices(devmap, ks)
    {
      var i :| 0 <= i < |ks| && ks[i] == k;
      assert HostDevices(devmap, ks)[i] == devmap[k].dev;
    }
  }

  /** What `getdevice` may return for the selection `list`: nothing for an
      empty list or a lone `void` or `none`; for a lone `all` the host entries
      of all records in some order of the map; otherwise the explicit entries
      (a lone id is resolved with index 0, as in the general case). */
  ghost predicate GetDeviceResult(devmap: map<nat, IndexDevice>, list: seq<string>, ret: seq<Specs.LinuxDevice>)
  {
    if |list| == 1 && list[0] == "all" then
      exists ks :: KeyOrder(ks, devmap) && ret == HostDevices(devmap, ks)
    else if |list| == 0 || (|list| == 1 && (list[0] == "void" || list[0] == "none")) then ret == []
    else ret == Explicit(devmap, list)
  }

  /** `getdevice`: the selection is read from `IX_VISIBLE_DEVICES`. */
  method GetDevice(devmap: map<nat, IndexDevice>, img: Image.CUDA) returns (ret: seq<Specs.LinuxDevice>)
    ensures GetDeviceResult(devmap, Image.SelectDevices(img.env, [VisibleDevicesEnvvar]), ret)
  {
    var list := Image.DevicesFromEnvvars(img, [VisibleDevicesEnvvar]);
    ret := DevicesFor(devmap, list);
  }

  /** The branches of `getdevice` on the selection `list`. */
  method DevicesFor(devmap: map<nat, IndexDevice>, list: seq<string>) returns (ret: seq<Specs.LinuxDevice>)
    ensures GetDeviceResult(devmap, list, ret)
  {
    if |list| == 0 {
      ret := [];
    } else if |list| == 1 && list[0] == "all" {
      ret := AllDevices(devmap);
    } else if |list| == 1 && (list[0] == "void" || list[0] == "none") {
      ret := [];
    } else if |list| == 1 {
      var dev := GenerateDevFromString(devmap, list[0], 0);
      assert Explicit(devmap, list) == Explicit(devmap, list[..0]) + OptionToSeq(dev) by {
        assert list[..1] == list;
      }
      ret := OptionToSeq(dev);
    } else {
      ret := ExplicitDevices(devmap, list);
    }
  }

  /** The `all` branch of `getdevice`: the host entry of every record, in the
      order the map iteration visits the keys. */
  method AllDevices(devmap: map<nat, IndexDevice>) returns (ret: seq<Specs.LinuxDevice>)
    ensures exists ks :: KeyOrder(ks, devmap) && ret == HostDevices(devmap, ks)
  {
    ret := [];
    var keys := devmap.Keys;
    ghost var ks: seq<nat> := [];
    while keys != {}
      invariant forall k :: k in devmap <==> k in keys || k in ks
      invariant forall k :: k in keys ==> k in devmap && k !in ks
      invariant forall i, j :: 0 <= i < j < |ks| ==> ks[i] != ks[j]
      invariant ret == HostDevices(devmap, ks)
      decreases |keys|
    {
      var k :| k in keys;
      ret := ret + [devmap[k].dev];
      assert (ks + [k])[..|ks|] == ks;
      ks := ks + [k];
      keys := keys - {k};
    }
    assert KeyOrder(ks, devmap);
  }

  /** The explicit branch of `getdevice`: each id resolved with its position. */
  method ExplicitDevices(devmap: map<nat, IndexDevice>, list: seq<string>) returns (ret: seq<Specs.LinuxDevice>)
    ensures ret == Explicit(devmap, list)
  {
    ret := [];
    var mountIdx := 0;
    while mountIdx < |list|
      invariant 0 <= mountIdx <= |list|
      invariant ret == Explicit(devmap, list[..mountIdx])
    {
      var dev := GenerateDevFromString(devmap, list[mountIdx], mountIdx);
      assert list[..mountIdx + 1][..mountIdx] == list[..mountIdx];
      if dev.Some? {
        ret := ret + [dev.value];
      }
      mountIdx := mountIdx + 1;
    }
    assert list[..mountIdx] == list;
  }

  // ---------------------------------------------------------------------------
  // The enumeration

  /** What `buildMap` ends in: the nil map, the process exiting, or the map. */
  datatype MapOutcome = NoMap | Exited | Built(devmap: map<nat, IndexDevice>)

  /** Every index below `n` has a handle and a minor number. */
  function QueriesSucceed(o: Ixml.Oracle, n: nat): bool
  {
    n == 0 || (QueriesSucceed(o, n - 1) && o.handleRet(n - 1) == Ixml.SUCCESS && o.minorRet(n - 1).1 == Ixml.SUCCESS)
  }

  /** The scanned node with the given minor number, or the zero entry when the
      scan has none (a lookup in a nil or a smaller map). */
  function NodeFor(scan: Option<map<int, Specs.LinuxDevice>>, minor: int): Specs.LinuxDevice
  {
    if scan.Some? && minor in scan.value then scan.value[minor] else Specs.ZeroDevice
  }

  /** The record `buildMap` stores for index `i`. */
  function RecordFor(o: Ixml.Oracle, scan: Option<map<int, Specs.LinuxDevice>>, i: nat): IndexDevice
  {
    IndexDevice(NodeFor(scan, o.minorRet(i).0), Ixml.Device(i), i)
  }

  /** The outcome of `buildMap`: the nil map when initialisation or the count
      fails; an exit when some index has no handle or no minor number;
      otherwise exactly the indices `0..count-1`, each joined to the scanned
      node with its minor number. */
  function BuildMapSpec(o: Ixml.Oracle, entries: seq<WalkEntry>, libraryPath: string): (r: MapOutcome)
    ensures r.Built? ==> forall i: nat :: i in r.devmap <==> i < o.count
  {
    if Ixml.InitReply(o, libraryPath) != Ixml.SUCCESS || o.countRet != Ixml.SUCCESS then NoMap
    else if !QueriesSucceed(o, o.count) then Exited
    else Built(Records(o, Scan(entries), o.count))
  }

  /** The calls the per-index loop makes from index `i` on: a handle query and a
      minor query per index, stopping after the first that fails. */
  function QueryCalls(o: Ixml.Oracle, i: nat, n: nat): seq<Ixml.Call>
    decreases n - i
  {
    if i >= n then []
    else if o.handleRet(i) != Ixml.SUCCESS then [Ixml.GetHandle(i)]
    else if o.minorRet(i).1 != Ixml.SUCCESS then [Ixml.GetHandle(i), Ixml.GetMinor(i)]
    else [Ixml.GetHandle(i), Ixml.GetMinor(i)] + QueryCalls(o, i + 1, n)
  }

  /** The calls `buildMap` makes. */
  function BuildMapCalls(o: Ixml.Oracle, libraryPath: string): seq<Ixml.Call>
  {
    [Ixml.InitCall(libraryPath)]
    + if Ixml.InitReply(o, libraryPath) != Ixml.SUCCESS then []
      else [Ixml.GetCount] + if o.countRet != Ixml.SUCCESS then [] else QueryCalls(o, 0, o.count)
  }

  lemma {:induction false} QueryCallsNoShutdown(o: Ixml.Oracle, i: nat, n: nat)
    ensures Ixml.Shutdown !in QueryCalls(o, i, n)
    decreases n - i
  {
    if i < n && o.handleRet(i) == Ixml.SUCCESS && o.minorRet(i).1 == Ixml.SUCCESS {
      QueryCallsNoShutdown(o, i + 1, n);
    }
  }

  /** `buildMap` initialises the library and never shuts it down. */
  lemma BuildMapNeverShutsDown(o: Ixml.Oracle, libraryPath: string)
    ensures Ixml.Shutdown !in BuildMapCalls(o, libraryPath)
    ensures BuildMapCalls(o, libraryPath)[0] == Ixml.InitCall(libraryPath)
  {
    QueryCallsNoShutdown(o, 0, o.count);
  }

  lemma QueriesSucceedStep(o: Ixml.Oracle, i: nat)
    requires QueriesSucceed(o, i) && o.handleRet(i) == Ixml.SUCCESS && o.minorRet(i).1 == Ixml.SUCCESS
    ensures QueriesSucceed(o, i + 1)
  {
  }

  /** A failing index makes every longer range fail. */
  lemma {:induction false} QueriesFailFrom(o: Ixml.Oracle, i: nat, n: nat)
    requires i < n && (o.handleRet(i) != Ixml.SUCCESS || o.minorRet(i).1 != Ixml.SUCCESS)
    ensures !QueriesSucceed(o, n)
    decreases n
  {
    if n > i + 1 {
      QueriesFailFrom(o, i, n - 1);
    }
  }

  /** The records for the indices below `n`. */
  function Records(o: Ixml.Oracle, scan: Option<map<int, Specs.LinuxDevice>>, n: nat): map<nat, IndexDevice>
  {
    map i: nat | i < n :: RecordFor(o, scan, i)
  }

  /** `buildMap`: the scan, the initialisation, the count and one record per index. */
  method BuildMap(lib: Ixml.Library, entries: seq<WalkEntry>, libraryPath: string) returns (r: MapOutcome)
    modifies lib
    ensures r == BuildMapSpec(lib.oracle, entries, libraryPath)
    ensures lib.calls == old(lib.calls) + BuildMapCalls(lib.oracle, libraryPath)
  {
    ghost var o, c0 := lib.oracle, lib.calls;
    var devs := SearchDevice(entries);
    var ret := lib.Initialize(libraryPath);
    if ret != Ixml.SUCCESS {
      assert BuildMapCalls(o, libraryPath) == [Ixml.InitCall(libraryPath)] + [];
      return NoMap;
    }
    var count;
    count, ret := lib.DeviceGetCount();
    ghost var c1 := lib.calls;
    assert c1 == c0 + [Ixml.InitCall(libraryPath)] + [Ixml.GetCount];
    if ret != Ixml.SUCCESS {
      assert BuildMapCalls(o, libraryPath) == [Ixml.InitCall(libraryPath)] + ([Ixml.GetCount] + []);
      return NoMap;
    }
    r := IndexLoop(lib, devs, count);
    assert BuildMapCalls(o, libraryPath) == [Ixml.InitCall(libraryPath)] + ([Ixml.GetCount] + QueryCalls(o, 0, count));
  }

  /** The per-index loop of `buildMap`; a failing query exits the process. */
  method IndexLoop(lib: Ixml.Library, devs: Option<map<int, Specs.LinuxDevice>>, count: nat) returns (r: MapOutcome)
    modifies lib
    ensures r == if QueriesSucceed(lib.oracle, count) then Built(Records(lib.oracle, devs, count)) else Exited
    ensures lib.calls == old(lib.calls) + QueryCalls(lib.oracle, 0, count)
  {
    var indexMap: map<nat, IndexDevice> := map[];
    ghost var o := lib.oracle;
    var i := 0;
    while i < count
      invariant 0 <= i <= count
      invariant QueriesSucceed(o, i)
      invariant indexMap == Records(o, devs, i)
      invariant old(lib.calls) + QueryCalls(o, 0, count) == lib.calls + QueryCalls(o, i, count)
    {
      var ok, device, minorID := QueryIndex(lib, i, count);
      if !ok {
        QueriesFailFrom(o, i, count);
        return Exited;
      }
      QueriesSucceedStep(o, i);
      indexMap := indexMap[i := IndexDevice(NodeFor(devs, minorID), device, i)];
      i := i + 1;
    }
    return Built(indexMap);
  }

  /** One turn of the per-index loop: the handle, then the minor number. */
  method QueryIndex(lib: Ixml.Library, i: nat, count: nat) returns (ok: bool, device: Ixml.Device, minor: int)
    requires i < count
    modifies lib
    ensures ok <==> lib.oracle.handleRet(i) == Ixml.SUCCESS && lib.oracle.minorRet(i).1 == Ixml.SUCCESS
    ensures ok ==> device == Ixml.Device(i) && minor == lib.oracle.minorRet(i).0
    ensures ok ==> old(lib.calls) + QueryCalls(lib.oracle, i, count) == lib.calls + QueryCalls(lib.oracle, i + 1, count)
    ensures !ok ==> lib.calls == old(lib.calls) + QueryCalls(lib.oracle, i, count)
  {
    var ret;
    device, ret := lib.DeviceGetHandleByIndex(i);
    if ret != Ixml.SUCCESS {
      return false, device, 0;
    }
    minor, ret := lib.GetMinorNumber(device);
    ok := ret == Ixml.SUCCESS;
  }

  // ---------------------------------------------------------------------------
  // The modifier

  /** The modifier: the entries to add. */
  datatype GraphicsModifier = GraphicsModifier(addDevice: seq<Specs.LinuxDevice>)

  /** What `NewGraphicsModifier` ends in. */
  datatype NewOutcome = ExitedProcess | NoModifier | Made(modifier: GraphicsModifier)

  /** `NewGraphicsModifier`: no modifier when there is no map; otherwise the
      modifier adding what `getdevice` selects. */
  method NewGraphicsModifier(img: Image.CUDA, lib: Ixml.Library, entries: seq<WalkEntry>) returns (r: NewOutcome)
    requires img.cfg != null
    modifies lib
    ensures var m := BuildMapSpec(lib.oracle, entries, img.cfg.libraryPath);
      && (m.NoMap? <==> r.NoModifier?)
      && (m.Exited? <==> r.ExitedProcess?)
      && (m.Built? ==> r.Made? && GetDeviceResult(m.devmap, Image.SelectDevices(img.env, [VisibleDevicesEnvvar]), r.modifier.addDevice))
    ensures lib.calls == old(lib.calls) + BuildMapCalls(lib.oracle, img.cfg.libraryPath)
  {
    var devMap := BuildMap(lib, entries, img.cfg.libraryPath);
    if devMap.NoMap? {
      return NoModifier;
    }
    if devMap.Exited? {
      return ExitedProcess;
    }
    var add := GetDevice(devMap.devmap, img);
    return Made(GraphicsModifier(add));
  }

  /** The cgroup rule for one added device: allow `rwm` on its type and number. */
  function CgroupRule(d: Specs.LinuxDevice): Specs.LinuxDeviceCgroup
  {
    Specs.LinuxDeviceCgroup(true, d.devType, Some(d.major), Some(d.minor), "rwm")
  }

  function CgroupRules(ds: seq<Specs.LinuxDevice>): seq<Specs.LinuxDeviceCgroup>
    decreases |ds|
  {
    if |ds| == 0 then [] else CgroupRules(ds[..|ds| - 1]) + [CgroupRule(ds[|ds| - 1])]
  }

  /** One rule per device, in device order, each matching its device. */
  lemma {:induction false} CgroupRulesMatch(ds: seq<Specs.LinuxDevice>)
    ensures |CgroupRules(ds)| == |ds|
    ensures forall i :: 0 <= i < |ds| ==> var c := CgroupRules(ds)[i];
      c.allow && c.access == "rwm" && c.devType == ds[i].devType
      && c.major == Some(ds[i].major) && c.minor == Some(ds[i].minor)
    decreases |ds|
  {
    if |ds| > 0 {
      CgroupRulesMatch(ds[..|ds| - 1]);
    }
  }

  /** The Linux section after the devices are appended to it. */
  function WithDevices(l: Specs.Linux, ds: seq<Specs.LinuxDevice>): Specs.Linux
    requires l.resources.Some?
  {
    Specs.Linux(l.devices + ds, Some(Specs.Resources(l.resources.value.devices + CgroupRules(ds))))
  }

  lemma WithDevicesStep(l: Specs.Linux, ds: seq<Specs.LinuxDevice>, d: Specs.LinuxDevice)
    requires l.resources.Some?
    ensures var w := WithDevices(l, ds);
      WithDevices(l, ds + [d]) == Specs.Linux(w.devices + [d], Some(Specs.Resources(w.resources.value.devices + [CgroupRule(d)])))
  {
    assert (ds + [d])[..|ds|] == ds;
    assert CgroupRules(ds + [d]) == CgroupRules(ds) + [CgroupRule(d)];
    assert l.devices + (ds + [d]) == (l.devices + ds) + [d];
    var rd := l.resources.value.devices;
    assert rd + (CgroupRules(ds) + [CgroupRule(d)]) == (rd + CgroupRules(ds)) + [CgroupRule(d)];
  }

  /** `graphicsModifier.Modify`: with no devices, nothing changes; otherwise each
      device is appended to the device list and its rule to the cgroup rules.
      A nil Linux section or resource section would be dereferenced. */
  method Modify(g: GraphicsModifier, spec: Specs.Spec) returns (err: Option<string>)
    requires |g.addDevice| > 0 ==> spec.linux.Some? && spec.linux.value.resources.Some?
    modifies spec
    ensures err.None?
    ensures |g.addDevice| == 0 ==> spec.linux == old(spec.linux)
    ensures |g.addDevice| > 0 ==> spec.linux == Some(WithDevices(old(spec.linux.value), g.addDevice))
    ensures spec.process == old(spec.process) && spec.mounts == old(spec.mounts)
  {
    if |g.addDevice| == 0 {
      return None;
    }
    ghost var l0 := spec.linux.value;
    assert WithDevices(l0, g.addDevice[..0]) == l0 by {
      assert l0.devices + [] == l0.devices;
      assert l0.resources.value.devices + [] == l0.resources.value.devices;
    }
    var k := 0;
    while k < |g.addDevice|
      invariant 0 <= k <= |g.addDevice|
      invariant spec.linux == Some(WithDevices(l0, g.addDevice[..k]))
      invariant spec.process == old(spec.process) && spec.mounts == old(spec.mounts)
    {
      var d := g.addDevice[k];
      assert g.addDevice[..k + 1] == g.addDevice[..k] + [d];
      WithDevicesStep(l0, g.addDevice[..k], d);
      var l := spec.linux.value;
      spec.linux := Some(l.(devices := l.devices + [d]));
      var newDeviceCgroup := Specs.LinuxDeviceCgroup(true, d.devType, Some(d.major), Some(d.minor), "rwm");
      l := spec.linux.value;
      spec.linux := Some(l.(resources := Some(Specs.Resources(l.resources.value.devices + [newDeviceCgroup]))));
      k := k + 1;
    }
    assert g.addDevice[..k] == g.addDevice;
    return None;
  }
}
