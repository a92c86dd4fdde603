/** The management library that enumerates the accelerator cards. Its C entry
    points are an oracle: a record of the replies each call gives, and a call
    log that records what the pipeline asked, in order. */
module Ixml {
  /** `ixml.Return`, the status code of every call. */
  type Return = int

  const SUCCESS: Return := 0

  /** A device handle; the model identifies a device by its enumeration index. */
  datatype Device = Device(index: nat)

  /** The replies of the library: the status of each initialisation form, the
      device count, and per index the status of the handle query, the minor
      number and the UUID. */
  datatype Oracle = Oracle(
    initRet: Return,
    absInitRet: string -> Return,
    shutdownRet: Return,
    count: nat,
    countRet: Return,
    handleRet: nat -> Return,
    minorRet: nat -> (int, Return),
    uuidRet: nat -> (string, Return))

  /** The calls the pipeline makes. */
  datatype Call =
    | Init
    | AbsInit(libraryPath: string)
    | Shutdown
    | GetCount
    | GetHandle(index: nat)
    | GetMinor(index: nat)
    | GetUuid(index: nat)

  /** The status an initialisation gives: the absolute-path form when a path is configured. */
  function InitReply(o: Oracle, libraryPath: string): Return
  {
    if libraryPath != "" then o.absInitRet(libraryPath) else o.initRet
  }

  /** The call that initialisation makes. */
  function InitCall(libraryPath: string): Call
  {
    if libraryPath != "" then AbsInit(libraryPath) else Init
  }

  /** The library, with its replies fixed and its call log growing. */
  class Library {
    const oracle: Oracle
    var calls: seq<Call>

    constructor (oracle: Oracle)
      ensures this.oracle == oracle && calls == []
    {
      this.oracle := oracle;
      calls := [];
    }

    /** `Init` or `AbsInit`, as the configured library path decides. */
    method Initialize(libraryPath: string) returns (ret: Return)
      modifies this
      ensures ret == InitReply(oracle, libraryPath)
      ensures calls == old(calls) + [InitCall(libraryPath)]
    {
      if libraryPath != "" {
        ret := oracle.absInitRet(libraryPath);
      } else {
        ret := oracle.initRet;
      }
      calls := calls + [InitCall(libraryPath)];
    }

    method ShutdownLibrary() returns (ret: Return)
      modifies this
      ensures ret == oracle.shutdownRet && calls == old(calls) + [Shutdown]
    {
      ret := oracle.shutdownRet;
      calls := calls + [Shutdown];
    }

    /** `DeviceGetCount`. */
    method DeviceGetCount() returns (count: nat, ret: Return)
      modifies this
      ensures count == oracle.count && ret == oracle.countRet
      ensures calls == old(calls) + [GetCount]
    {
      count, ret := oracle.count, oracle.countRet;
      calls := calls + [GetCount];
    }

    /** `DeviceGetHandleByIndex`. */
    method DeviceGetHandleByIndex(i: nat) returns (device: Device, ret: Return)
      modifies this
      ensures device == Device(i) && ret == oracle.handleRet(i)
      ensures calls == old(calls) + [GetHandle(i)]
    {
      device, ret := Device(i), oracle.handleRet(i);
      calls := calls + [GetHandle(i)];
    }

    /** `Device.GetMinorNumber`. */
    method GetMinorNumber(d: Device) returns (minor: int, ret: Return)
      modifies this
      ensures (minor, ret) == oracle.minorRet(d.index)
      ensures calls == old(calls) + [GetMinor(d.index)]
    {
      minor, ret := oracle.minorRet(d.index).0, oracle.minorRet(d.index).1;
      calls := calls + [GetMinor(d.index)];
    }

    /** `Device.GetUUID`. */
    method GetUUID(d: Device) returns (uuid: string, ret: Return)
      modifies this
      ensures (uuid, ret) == oracle.uuidRet(d.index)
      ensures calls == old(calls) + [GetUuid(d.index)]
    {
      uuid, ret := oracle.uuidRet(d.index).0, oracle.uuidRet(d.index).1;
      calls := calls + [GetUuid(d.index)];
    }
  }
}
