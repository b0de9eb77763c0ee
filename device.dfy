/** One device of a session (`RocmSmiDevice`, src/device.rs): a device index
    checked against the device count when the handle is made, and queries
    that hand that index on to the session. The handle keeps no other state,
    so every query is a function of the native library's replies, except the
    power query, which is the loop of `Power.Power.GetPower`.

    Three calls of src/device.rs name session queries that src/lib.rs does
    not define under those names (`get_device_vendor_id`,
    `get_device_pcie_data`, `get_device_power_data`); they are bound here to
    `GetVendorId`, `GetPcieData` and `Power.Power.GetPower`. */
module Device {
  import opened Ints
  import opened Error
  import opened Bindings
  import opened Protocol
  import RocmSmi
  import Power

  datatype RocmSmiDevice = RocmSmiDevice(id: u32, rocm: RocmSmi.RocmSmi) {

    /** `RocmSmiDevice::new_from_rocm`: the count, then the bounds check. */
    static function NewFromRocm(ffi: Ffi, rocm: RocmSmi.RocmSmi, id: u32): (r: Result<RocmSmiDevice>)
      ensures r.Ok? <==> ffi.numDevices.status == 0 && id < ffi.numDevices.data
      ensures r.Ok? ==> r.value.id == id && r.value.rocm == rocm
      ensures ffi.numDevices.status != 0 ==> r == Err(ffi.fromU16(ffi.numDevices.status))
      ensures ffi.numDevices.status == 0 && id >= ffi.numDevices.data ==> r == Err(RsmiStatusInputOutOfBounds)
    {
      var devC :- rocm.GetDeviceCount(ffi);
      if id >= devC then Err(RsmiStatusInputOutOfBounds) else Ok(RocmSmiDevice(id, rocm))
    }

    /** `RocmSmiDevice::new`: a fresh session, then the same count and bounds
        check as `new_from_rocm`. */
    static function New(ffi: Ffi, id: u32): (r: Result<RocmSmiDevice>)
      ensures r.Ok? <==> ffi.initC == 0 && ffi.numDevices.status == 0 && id < ffi.numDevices.data
      ensures r.Ok? ==> r.value.id == id
      ensures ffi.initC != 0 ==> r == Err(ffi.fromU16(ffi.initC))
      ensures ffi.initC == 0 && ffi.numDevices.status != 0 ==> r == Err(ffi.fromU16(ffi.numDevices.status))
      ensures ffi.initC == 0 && ffi.numDevices.status == 0 && id >= ffi.numDevices.data ==>
        r == Err(RsmiStatusInputOutOfBounds)
    {
      var rocm :- RocmSmi.RocmSmi.Init(ffi);
      var devC :- rocm.GetDeviceCount(ffi);
      if id >= devC then Err(RsmiStatusInputOutOfBounds) else Ok(RocmSmiDevice(id, rocm))
    }

    function GetId(ffi: Ffi): (r: Result<u16>)
      ensures ScalarProtocol(ffi.fromU16, ffi.deviceId(id), r)
    {
      rocm.GetDeviceId(ffi, id)
    }

    function GetName(ffi: Ffi): (r: Result<string>)
      ensures StringProtocol(ffi.fromU16, ffi.deviceName(id), r)
    {
      rocm.GetDeviceName(ffi, id)
    }

    /** `get_vemdor_id` (sic), bound to the session's `get_vendor_id`. */
    function GetVemdorId(ffi: Ffi): (r: Result<u16>)
      ensures ScalarProtocol(ffi.fromU16, ffi.deviceVendorId(id), r)
    {
      rocm.GetVendorId(ffi, id)
    }

    function GetBrand(ffi: Ffi): (r: Result<string>)
      ensures StringProtocol(ffi.fromU16, ffi.deviceBrand(id), r)
    {
      rocm.GetDeviceBrand(ffi, id)
    }

    function GetVendorName(ffi: Ffi): (r: Result<string>)
      ensures StringProtocol(ffi.fromU16, ffi.deviceVendorName(id), r)
    {
      rocm.GetDeviceVendorName(ffi, id)
    }

    function GetVramVendorName(ffi: Ffi): (r: Result<string>)
      ensures StringProtocol(ffi.fromU16, ffi.deviceVramVendorName(id), r)
    {
      rocm.GetDeviceVramVendorName(ffi, id)
    }

    function GetSerialNumber(ffi: Ffi): (r: Result<string>)
      ensures StringProtocol(ffi.fromU16, ffi.deviceSerial(id), r)
    {
      rocm.GetDeviceSerialNumber(ffi, id)
    }

    function GetSubsystemId(ffi: Ffi): (r: Result<u16>)
      ensures ScalarProtocol(ffi.fromU16, ffi.deviceSubsystemId(id), r)
    {
      rocm.GetDeviceSubsystemId(ffi, id)
    }

    function GetSubsystemName(ffi: Ffi): (r: Result<string>)
      ensures StringProtocol(ffi.fromU16, ffi.deviceSubsystemName(id), r)
    {
      rocm.GetDeviceSubsystemName(ffi, id)
    }

    function GetDrmRenderMinor(ffi: Ffi): (r: Result<u32>)
      ensures ScalarProtocol(ffi.fromU16, ffi.deviceDrmRender(id), r)
    {
      rocm.GetDeviceDrmRenderMinor(ffi, id)
    }

    function GetSubsystemVendorId(ffi: Ffi): (r: Result<u16>)
      ensures ScalarProtocol(ffi.fromU16, ffi.deviceSubsystemVendorId(id), r)
    {
      rocm.GetDeviceSubsystemVendorId(ffi, id)
    }

    function GetUniqueId(ffi: Ffi): (r: Result<u64>)
      ensures ScalarProtocol(ffi.fromU16, ffi.deviceUniqueId(id), r)
    {
      rocm.GetDeviceUniqueId(ffi, id)
    }

    /** `get_pcie_data`, bound to the session's `get_pcie_data`. */
    function GetPcieData(ffi: Ffi): (r: Result<Pcie>)
      ensures r == ffi.getPcie(id)
    {
      rocm.GetPcieData(ffi, id)
    }

    /** `get_power_data`, bound to `Power::get_power` for the stored index:
        the same result and the same foreign calls. */
    method GetPowerData(ffi: Ffi) returns (r: Result<Power.Power>, ghost calls: seq<Power.Call>)
      ensures r == Power.PowerOutcome(ffi, id)
      ensures calls == Power.PowerCalls(ffi, id)
    {
      r, calls := Power.Power.GetPower(ffi, id);
    }
  }

  /** `new_from_rocm` answers `RsmiStatusInputOutOfBounds` exactly when the
      count succeeds and the index is not below it, or when the count fails
      with a status that the table maps to that same error. */
  lemma OutOfBoundsIff(ffi: Ffi, rocm: RocmSmi.RocmSmi, id: u32)
    ensures RocmSmiDevice.NewFromRocm(ffi, rocm, id) == Err(RsmiStatusInputOutOfBounds) <==>
      || (ffi.numDevices.status == 0 && id >= ffi.numDevices.data)
      || (ffi.numDevices.status != 0 && ffi.fromU16(ffi.numDevices.status) == RsmiStatusInputOutOfBounds)
  {
  }

  /** A failing `init` decides `new` on its own: the device count, whatever
      it would answer, plays no part. */
  lemma InitFailureComesFirst(a: Ffi, b: Ffi, id: u32)
    requires a.initC == b.initC && a.initC != 0 && a.fromU16 == b.fromU16
    ensures RocmSmiDevice.New(a, id) == RocmSmiDevice.New(b, id)
  {
  }

  /** After a successful `init`, `new` is `new_from_rocm` on the new session. */
  lemma NewIsInitThenNewFromRocm(ffi: Ffi, id: u32)
    requires RocmSmi.RocmSmi.Init(ffi).Ok?
    ensures RocmSmiDevice.New(ffi, id) == RocmSmiDevice.NewFromRocm(ffi, RocmSmi.RocmSmi.Init(ffi).value, id)
  {
  }

  /** A handle made against the replies `ffi0` holds the index it was given,
      which was below the count of that moment; every query it offers, asked
      later against any replies `ffi`, is the session's query at that index. */
  lemma BoundQueriesMatchSession(ffi0: Ffi, rocm: RocmSmi.RocmSmi, id: u32, ffi: Ffi)
    requires RocmSmiDevice.NewFromRocm(ffi0, rocm, id).Ok?
    ensures var d := RocmSmiDevice.NewFromRocm(ffi0, rocm, id).value;
      && d.id == id && ffi0.numDevices.status == 0 && id < ffi0.numDevices.data
      && d.GetId(ffi) == rocm.GetDeviceId(ffi, id)
      && d.GetName(ffi) == rocm.GetDeviceName(ffi, id)
      && d.GetVemdorId(ffi) == rocm.GetVendorId(ffi, id)
      && d.GetBrand(ffi) == rocm.GetDeviceBrand(ffi, id)
      && d.GetVendorName(ffi) == rocm.GetDeviceVendorName(ffi, id)
      && d.GetVramVendorName(ffi) == rocm.GetDeviceVramVendorName(ffi, id)
      && d.GetSerialNumber(ffi) == rocm.GetDeviceSerialNumber(ffi, id)
      && d.GetSubsystemId(ffi) == rocm.GetDeviceSubsystemId(ffi, id)
      && d.GetSubsystemName(ffi) == rocm.GetDeviceSubsystemName(ffi, id)
      && d.GetDrmRenderMinor(ffi) == rocm.GetDeviceDrmRenderMinor(ffi, id)
      && d.GetSubsystemVendorId(ffi) == rocm.GetDeviceSubsystemVendorId(ffi, id)
      && d.GetUniqueId(ffi) == rocm.GetDeviceUniqueId(ffi, id)
      && d.GetPcieData(ffi) == rocm.GetPcieData(ffi, id)
  {
  }
}
