/** The parts of the OCI runtime specification that the modifiers read and write. */
module Specs {
  import opened Wrappers

  /** A mount point of the container. */
  datatype Mount = Mount(destination: string, mountType: string, source: string, options: seq<string>)

  /** A device node to create in the container. */
  datatype LinuxDevice = LinuxDevice(
    path: string, devType: string, major: int, minor: int,
    fileMode: Option<bv32>, uid: Option<nat>, gid: Option<nat>)

  /** The zero `LinuxDevice`, which a map lookup of a missing key yields. */
  const ZeroDevice: LinuxDevice := LinuxDevice("", "", 0, 0, None, None, None)

  /** A device-cgroup access rule. */
  datatype LinuxDeviceCgroup = LinuxDeviceCgroup(
    allow: bool, devType: string, major: Option<int>, minor: Option<int>, access: string)

  /** The resource section; only its device rules are modelled. */
  datatype Resources = Resources(devices: seq<LinuxDeviceCgroup>)

  /** The Linux section: the device nodes and the (possibly nil) resources. */
  datatype Linux = Linux(devices: seq<LinuxDevice>, resources: Option<Resources>)

  /** The container process; only its environment is modelled. */
  datatype Process = Process(env: seq<string>)

  /** An OCI runtime specification held in memory and changed in place. */
  class Spec {
    var process: Option<Process>
    var mounts: seq<Mount>
    var linux: Option<Linux>

    constructor (process: Option<Process>, mounts: seq<Mount>, linux: Option<Linux>)
      ensures this.process == process && this.mounts == mounts && this.linux == linux
    {
      this.process, this.mounts, this.linux := process, mounts, linux;
    }
  }
}
