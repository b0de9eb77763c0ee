/** The session (`RocmSmi`, src/lib.rs). It has no fields: every query is one
    foreign call, the status test of the protocol and, for strings, the
    terminator scan and UTF-8 check, so each query is a function of the
    reply of its foreign call. */
module RocmSmi {
  import opened Ints
  import opened Error
  import opened Bindings
  import opened Protocol

  datatype RocmSmi = RocmSmi {

    /** `RocmSmi::init`: a session exactly when `init_c` returns 0. */
    static function Init(ffi: Ffi): (r: Result<RocmSmi>)
      ensures r.Ok? <==> ffi.initC == 0
      ensures r.Err? ==> r.error == ffi.fromU16(ffi.initC)
    {
      if ffi.initC == 0 then Ok(RocmSmi) else Err(ffi.fromU16(ffi.initC))
    }

    function GetDeviceCount(ffi: Ffi): (r: Result<u32>)
      ensures ScalarProtocol(ffi.fromU16, ffi.numDevices, r)
    {
      DecodeScalar(ffi.fromU16, ffi.numDevices)
    }

    function GetDeviceId(ffi: Ffi, devId: u32): (r: Result<u16>)
      ensures ScalarProtocol(ffi.fromU16, ffi.deviceId(devId), r)
    {
      DecodeScalar(ffi.fromU16, ffi.deviceId(devId))
    }

    function GetDeviceName(ffi: Ffi, devId: u32): (r: Result<string>)
      ensures StringProtocol(ffi.fromU16, ffi.deviceName(devId), r)
    {
      DecodeString(ffi.fromU16, ffi.deviceName(devId))
    }

    function GetVendorId(ffi: Ffi, devId: u32): (r: Result<u16>)
      ensures ScalarProtocol(ffi.fromU16, ffi.deviceVendorId(devId), r)
    {
      DecodeScalar(ffi.fromU16, ffi.deviceVendorId(devId))
    }

    function GetDeviceBrand(ffi: Ffi, devId: u32): (r: Result<string>)
      ensures StringProtocol(ffi.fromU16, ffi.deviceBrand(devId), r)
    {
      DecodeString(ffi.fromU16, ffi.deviceBrand(devId))
    }

    function GetDeviceVendorName(ffi: Ffi, devId: u32): (r: Result<string>)
      ensures StringProtocol(ffi.fromU16, ffi.deviceVendorName(devId), r)
    {
      DecodeString(ffi.fromU16, ffi.deviceVendorName(devId))
    }

    function GetDeviceVramVendorName(ffi: Ffi, devId: u32): (r: Result<string>)
      ensures StringProtocol(ffi.fromU16, ffi.deviceVramVendorName(devId), r)
    {
      DecodeString(ffi.fromU16, ffi.deviceVramVendorName(devId))
    }

    function GetDeviceSerialNumber(ffi: Ffi, devId: u32): (r: Result<string>)
      ensures StringProtocol(ffi.fromU16, ffi.deviceSerial(devId), r)
    {
      DecodeString(ffi.fromU16, ffi.deviceSerial(devId))
    }

    function GetDeviceSubsystemId(ffi: Ffi, devId: u32): (r: Result<u16>)
      ensures ScalarProtocol(ffi.fromU16, ffi.deviceSubsystemId(devId), r)
    {
      DecodeScalar(ffi.fromU16, ffi.deviceSubsystemId(devId))
    }

    function GetDeviceSubsystemName(ffi: Ffi, devId: u32): (r: Result<string>)
      ensures StringProtocol(ffi.fromU16, ffi.deviceSubsystemName(devId), r)
    {
      DecodeString(ffi.fromU16, ffi.deviceSubsystemName(devId))
    }

    function GetDeviceDrmRenderMinor(ffi: Ffi, devId: u32): (r: Result<u32>)
      ensures ScalarProtocol(ffi.fromU16, ffi.deviceDrmRender(devId), r)
    {
      DecodeScalar(ffi.fromU16, ffi.deviceDrmRender(devId))
    }

    function GetDeviceSubsystemVendorId(ffi: Ffi, devId: u32): (r: Result<u16>)
      ensures ScalarProtocol(ffi.fromU16, ffi.deviceSubsystemVendorId(devId), r)
    {
      DecodeScalar(ffi.fromU16, ffi.deviceSubsystemVendorId(devId))
    }

    function GetDeviceUniqueId(ffi: Ffi, devId: u32): (r: Result<u64>)
      ensures ScalarProtocol(ffi.fromU16, ffi.deviceUniqueId(devId), r)
    {
      DecodeScalar(ffi.fromU16, ffi.deviceUniqueId(devId))
    }

    /** `get_pcie_data` hands the call on to the PCIe query, whose workings
        are not part of this model. */
    function GetPcieData(ffi: Ffi, devId: u32): (r: Result<Pcie>)
      ensures r == ffi.getPcie(devId)
    {
      ffi.getPcie(devId)
    }
  }

  /** No hidden state: two native states that give the same replies to the
      calls a query makes (and map statuses alike) give the same results, for
      every query of the session. */
  lemma QueriesDependOnlyOnReplies(rocm: RocmSmi, a: Ffi, b: Ffi, devId: u32)
    requires a.fromU16 == b.fromU16
    ensures a.initC == b.initC ==> RocmSmi.Init(a) == RocmSmi.Init(b)
    ensures a.numDevices == b.numDevices ==> rocm.GetDeviceCount(a) == rocm.GetDeviceCount(b)
    ensures a.deviceId(devId) == b.deviceId(devId) ==> rocm.GetDeviceId(a, devId) == rocm.GetDeviceId(b, devId)
    ensures a.deviceName(devId) == b.deviceName(devId) ==> rocm.GetDeviceName(a, devId) == rocm.GetDeviceName(b, devId)
    ensures a.deviceVendorId(devId) == b.deviceVendorId(devId) ==> rocm.GetVendorId(a, devId) == rocm.GetVendorId(b, devId)
    ensures a.deviceBrand(devId) == b.deviceBrand(devId) ==> rocm.GetDeviceBrand(a, devId) == rocm.GetDeviceBrand(b, devId)
    ensures a.deviceVendorName(devId) == b.deviceVendorName(devId) ==> rocm.GetDeviceVendorName(a, devId) == rocm.GetDeviceVendorName(b, devId)
    ensures a.deviceVramVendorName(devId) == b.deviceVramVendorName(devId) ==> rocm.GetDeviceVramVendorName(a, devId) == rocm.GetDeviceVramVendorName(b, devId)
    ensures a.deviceSerial(devId) == b.deviceSerial(devId) ==> rocm.GetDeviceSerialNumber(a, devId) == rocm.GetDeviceSerialNumber(b, devId)
    ensures a.deviceSubsystemId(devId) == b.deviceSubsystemId(devId) ==> rocm.GetDeviceSubsystemId(a, devId) == rocm.GetDeviceSubsystemId(b, devId)
    ensures a.deviceSubsystemName(devId) == b.deviceSubsystemName(devId) ==> rocm.GetDeviceSubsystemName(a, devId) == rocm.GetDeviceSubsystemName(b, devId)
    ensures a.deviceDrmRender(devId) == b.deviceDrmRender(devId) ==> rocm.GetDeviceDrmRenderMinor(a, devId) == rocm.GetDeviceDrmRenderMinor(b, devId)
    ensures a.deviceSubsystemVendorId(devId) == b.deviceSubsystemVendorId(devId) ==> rocm.GetDeviceSubsystemVendorId(a, devId) == rocm.GetDeviceSubsystemVendorId(b, devId)
    ensures a.deviceUniqueId(devId) == b.deviceUniqueId(devId) ==> rocm.GetDeviceUniqueId(a, devId) == rocm.GetDeviceUniqueId(b, devId)
    ensures a.getPcie(devId) == b.getPcie(devId) ==> rocm.GetPcieData(a, devId) == rocm.GetPcieData(b, devId)
  {
  }
}
