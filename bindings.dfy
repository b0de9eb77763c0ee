/** The native library as the wrapper sees it. Every foreign call returns a
    fixed-layout record of a 16-bit status and a payload that is meaningful
    only when the status is 0. The library itself is not visible, so it is
    modelled as an oracle: one function per foreign entry point, from its
    arguments to the record it returns. */
module Bindings {
  import opened Ints
  import opened Error

  /** A record `{status, data}` with a single payload (`result_uint16_t`,
      `result_uint32_t`, `result_uint64_t`, `ResultStr`). */
  datatype Reply<T> = Reply(status: u16, data: T)

  /** A record `{status, data1, data2}` carrying two readings of one call. */
  datatype ReplyPair = ReplyPair(status: u16, data1: u64, data2: u64)

  /** The foreign-owned memory a string payload points at, from the pointer
      onwards. `CStr::from_ptr` is only defined on memory that holds a NUL
      terminator, so every such region contains a 0 byte. */
  type CString = m: seq<u8> | 0 in m witness [0]

  /** The PCIe record, produced by a query that is not part of this model. */
  type Pcie

  /** One state of the native library: the answer of every foreign entry
      point, and the status table `RocmErr::from_u16`, which is not part of
      this model and is therefore left as an arbitrary total function. */
  datatype Ffi = Ffi(
    initC: u16,
    numDevices: Reply<u32>,
    deviceId: u32 -> Reply<u16>,
    deviceName: u32 -> Reply<CString>,
    deviceVendorId: u32 -> Reply<u16>,
    deviceBrand: u32 -> Reply<CString>,
    deviceVendorName: u32 -> Reply<CString>,
    deviceVramVendorName: u32 -> Reply<CString>,
    deviceSerial: u32 -> Reply<CString>,
    deviceSubsystemId: u32 -> Reply<u16>,
    deviceSubsystemName: u32 -> Reply<CString>,
    deviceDrmRender: u32 -> Reply<u32>,
    deviceSubsystemVendorId: u32 -> Reply<u16>,
    deviceUniqueId: u32 -> Reply<u64>,
    getPcie: u32 -> Result<Pcie>,
    powerSensorCount: u32 -> Reply<u16>,
    powerSensor: (u32, u16) -> Reply<u64>,
    powerAvgAll: u32 -> Reply<u64>,
    powerCap: (u32, u16) -> Reply<u64>,
    defaultPowerCap: u32 -> Reply<u64>,
    powerCapRange: u32 -> ReplyPair,
    fromU16: u16 -> RocmErr
  )
}
