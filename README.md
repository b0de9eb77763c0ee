# rocm_lib: a Dafny model of the ROCm SMI query layer

`rocm_lib` is a Rust wrapper over the ROCm System Management Interface.
Its session type `RocmSmi` turns the fixed-layout status/data structures of
the native library into typed results. Its device handle `RocmSmiDevice` checks
a device index against the device count and forwards queries with that
index. `Power::get_power` gathers a device's power telemetry: a sensor
count, a pass over the sensors for their power, the average power, a second
pass over the sensors for their caps, the default cap and the cap range.

The model treats the native library as an oracle, `Bindings.Ffi`: one
function per foreign call from its arguments to its reply. The table
`RocmErr::from_u16` is kept as an uninterpreted field of the oracle.
Because the session and the device handle have no mutable state, their
queries are functions of the oracle. `get_power` does its work step by
step, so it is an imperative method with two `for` loops. A ghost trace
records the foreign calls in the order it makes them. The method is proved
against a declarative specification built from three functions:

- `Power.PowerPlan` — the fixed order of calls: the count, the power of
  sensors 0..n, the average, the cap of sensors 0..n, the default cap, the range.
- `Power.PowerOutcome` — the plan run until its first failing call: that
  call's mapped status, or the assembled record.
- `Power.PowerCalls` — the plan up to and including that call.

The lemmas beside these functions state what `get_power` promises: fail-fast
behaviour, the calls it never makes, what a success reports, and exactly when
it succeeds.

A string reply holds a NUL-terminated byte region (`Bindings.CString`).
`CStr::from_ptr` is modelled as the bytes before the first NUL. For
`to_str`, the model has its own strict UTF-8 decoder and encoder, following
RFC 3629: shortest forms only, no surrogates, nothing above U+10FFFF. Both
round trips are proved.

Files: `ints.dfy` (fixed-width integers), `error.dfy` (`RocmErr`, `Result`),
`bindings.dfy` (the oracle), `utf8.dfy`, `protocol.dfy` (the status/result
protocol every query uses), `rocm_smi.dfy` (src/lib.rs), `power.dfy`
(src/queries/power.rs), `device.dfy` (src/device.rs).

## Model

| member | source | states |
|---|---|---|
| `RocmSmi.RocmSmi.Init` | src/lib.rs:13-19 | a session exactly when `init_c` returns 0; otherwise the mapped code |
| `RocmSmi.RocmSmi.GetDeviceCount` | src/lib.rs:21-29 | `Ok(data)` exactly on status 0, the payload unchanged at u32; otherwise `Err(from_u16(status))` |
| `RocmSmi.RocmSmi.GetDeviceId` | src/lib.rs:31-39 | the scalar protocol for the device-id reply, u16 payload unchanged |
| `RocmSmi.RocmSmi.GetDeviceName` | src/lib.rs:41-53 | the string protocol for the name reply: mapped status if non-zero; else `Ok` exactly when the bytes before the NUL are UTF-8, and then their text; else `RsmiStatusUnknownError` |
| `RocmSmi.RocmSmi.GetVendorId` | src/lib.rs:55-63 | the scalar protocol for the vendor-id reply (u16) |
| `RocmSmi.RocmSmi.GetDeviceBrand` | src/lib.rs:65-77 | the string protocol for the brand reply |
| `RocmSmi.RocmSmi.GetDeviceVendorName` | src/lib.rs:79-91 | the string protocol for the vendor-name reply |
| `RocmSmi.RocmSmi.GetDeviceVramVendorName` | src/lib.rs:92-104 | the string protocol for the VRAM vendor-name reply |
| `RocmSmi.RocmSmi.GetDeviceSerialNumber` | src/lib.rs:106-118 | the string protocol for the serial-number reply |
| `RocmSmi.RocmSmi.GetDeviceSubsystemId` | src/lib.rs:120-128 | the scalar protocol for the subsystem-id reply (u16) |
| `RocmSmi.RocmSmi.GetDeviceSubsystemName` | src/lib.rs:130-142 | the string protocol for the subsystem-name reply |
| `RocmSmi.RocmSmi.GetDeviceDrmRenderMinor` | src/lib.rs:144-152 | the scalar protocol for the DRM render-minor reply (u32) |
| `RocmSmi.RocmSmi.GetDeviceSubsystemVendorId` | src/lib.rs:154-162 | the scalar protocol for the subsystem vendor-id reply (u16) |
| `RocmSmi.RocmSmi.GetDeviceUniqueId` | src/lib.rs:164-172 | the scalar protocol for the unique-id reply (u64) |
| `RocmSmi.RocmSmi.GetPcieData` | src/lib.rs:174-176 | exactly the PCIe query's result for that device |
| `RocmSmi.QueriesDependOnlyOnReplies` | src/lib.rs:10-176 | the session has no state: for init and every query, equal replies (and an equal status table) give equal results |
| `Protocol.DecodeScalar` | src/lib.rs:31-39 | `Ok` exactly on status 0 with the payload itself; otherwise the mapped status |
| `Protocol.CStrBytes` | src/lib.rs:47 | the bytes of the region before its first NUL: a prefix, followed by a 0, with no 0 in it |
| `Protocol.DecodeString` | src/lib.rs:41-53 | the string protocol: mapped status on failure; on status 0, `Ok` exactly when the terminated bytes are some text's UTF-8, and then that text; otherwise `RsmiStatusUnknownError` |
| `Protocol.CStrBytesOfTerminated` | src/lib.rs:47 | the scan stops at the first NUL: nothing after it enters the text |
| `Protocol.EncodeHasNoNul` | src/lib.rs:47-48 | a text without NUL characters has no 0 byte in its UTF-8 encoding |
| `Protocol.NulEncodesToZero` | src/lib.rs:47-48 | a NUL character in a text puts a 0 byte into its encoding |
| `Protocol.StringRoundTrip` | src/lib.rs:41-53 | a NUL-free text sent as its UTF-8 bytes, a terminator and anything after comes back exactly |
| `Protocol.StringResultShape` | src/lib.rs:47-50 | a decoded text has no NUL character, and its encoding plus a terminator begins the region |
| `Protocol.PayloadIgnoredOnFailure` | src/lib.rs:44-46 | with a non-zero status the payload never affects the result, scalar or string |
| `Protocol.NameExample` | src/lib.rs:47-50 | the region "MI250X" followed by NUL decodes to `Ok("MI250X")` |
| `Protocol.InvalidTextExample` | src/lib.rs:49-52 | the region 0xFF followed by NUL gives `RsmiStatusUnknownError` |
| `Utf8.EncodeChar` | src/lib.rs:48 | a character encodes to 1 to 4 bytes |
| `Utf8.Encode` | src/lib.rs:48 | a text encodes to between one and four bytes per character |
| `Utf8.DecodeFirst` | src/lib.rs:48 | a decoded first character uses 1 to 4 bytes of the input |
| `Utf8.DecodeFirstOfEncodeChar` | src/lib.rs:48 | decoding the encoding of a character, whatever follows, gives that character and its length |
| `Utf8.EncodeCharOfDecodeFirst` | src/lib.rs:48 | a decoded first character re-encodes to exactly the bytes it was read from |
| `Utf8.DecodeEncode` | src/lib.rs:48 | every text decodes back from its encoding |
| `Utf8.EncodeDecode` | src/lib.rs:48 | bytes that decode are exactly the encoding of what they decode to |
| `Utf8.DecodeIff` | src/lib.rs:48 | bytes decode to a text exactly when they are its encoding |
| `Utf8.DecodeNoneIff` | src/lib.rs:48-51 | decoding fails exactly when the bytes are the encoding of no text |
| `Utf8.DecodeAscii` | src/lib.rs:48 | ASCII bytes decode to the characters with those codes, one per byte |
| `Utf8.Decode` | src/lib.rs:48 | a decoded text has no more characters than bytes and at most four bytes per character (`None` for invalid input; exactness in `Utf8.DecodeIff`) |
| `Utf8.MultiByteExamples` | src/lib.rs:48 | U+00E9, U+20AC and U+1F600 encode to their RFC 3629 bytes, and the bytes of U+20AC decode back |
| `Utf8.RejectionExamples` | src/lib.rs:48-51 | an overlong NUL, an encoded surrogate, a code point above U+10FFFF, a truncated sequence and a stray continuation byte are rejected |
| `Protocol.CheckRes` | src/queries/power.rs:21-28 | passes exactly on status 0; otherwise fails with `from_u16(status)` (used at src/queries/power.rs:21, 28, 34, 41, 47, 54, 57) |
| `Power.Watts` | src/queries/power.rs:35 | `as f64 / 1000.` over exact reals: the watts times 1000 are the raw milliwatts, so nothing is lost and none is negative (also lines 48, 61, 64, 66-67) |
| `Power.PowerPlan` | src/queries/power.rs:27-57 | the call order: the count, the power of sensors 0..n, the average, the cap of sensors 0..n, the default cap, the range, with n the reported count |
| `Power.PowerOutcome` | src/queries/power.rs:26-70 | `Ok` exactly when every call of the plan passes, and then the assembled record; otherwise the mapped status of the plan's first failing call |
| `Power.PowerCalls` | src/queries/power.rs:26-70 | a non-empty prefix of the plan in which every call but the last passed, and the last failed unless the plan was completed |
| `Power.Assemble` | src/queries/power.rs:59-69 | the record holds the count and, per sensor in order, its power and its cap in watts |
| `Power.GetSensors` | src/queries/power.rs:19-23 | `Ok(data)` exactly when the count reply's status is 0; otherwise the mapped status |
| `Power.Power.GetPower` | src/queries/power.rs:26-70 | its result is the plan run to its first failing call (that call's mapped status) or the assembled record; its calls are the plan up to and including that call |
| `Power.Power.PowerPerSensor` | src/queries/power.rs:30-38 | after a passing count: stops with the run's result at the first failing sensor; otherwise passes through sensors 0..n and returns their power in watts, in sensor order |
| `Power.Power.CurrentSensorPowerCap` | src/queries/power.rs:43-51 | after a passing power pass and average: stops with the run's result at the first failing sensor cap; otherwise passes through and returns the caps in watts, in sensor order |
| `Power.FirstFailure` | src/queries/power.rs:28-57 | the index of the first failing call, or the plan's length; the call there fails |
| `Power.Advance` | src/queries/power.rs:27-57 | one more call after a passing prefix either stops the run there with its mapped status, or extends the passing prefix |
| `Power.StopsAt` | src/queries/power.rs:27-57 | a failing call with only passing calls before it is the result, and the calls end with it |
| `Power.CountFailure` | src/queries/power.rs:27-28 | a failing count gives `Err(from_u16(status))`, and the count is the only call made |
| `Power.SensorFailure` | src/queries/power.rs:32-34 | the first failing sensor `s` decides the error; the calls are the count and sensors 0..s in order, so no later sensor, no average and no cap is read |
| `Power.CapFailure` | src/queries/power.rs:45-47 | the first failing cap `s` decides the error; the calls are the plan through cap `s`, so the default cap and the range are not read |
| `Power.OkIffEveryCallPasses` | src/queries/power.rs:27-57 | `get_power` succeeds exactly when the count, every sensor power, the average, every sensor cap, the default cap and the range all have status 0 |
| `Power.SuccessRecord` | src/queries/power.rs:59-69 | on success: the reported count, both per-sensor sequences of that length, each entry the raw reading of that sensor in watts, the average, default cap and range in watts, and every plan call made in order |
| `Power.FailFast` | src/queries/power.rs:27-57 | the calls are a non-empty prefix of the plan, all but the last passed, and the result is an error exactly when the last failed, with that call's mapped status |
| `Power.FailFastExample` | src/queries/power.rs:32-34 | three sensors, the second failing with status 12: the error is the mapping of 12, after the count and sensors 0 and 1 only |
| `Power.WattsExample` | src/queries/power.rs:61 | 5000 mW is 5 W |
| `Device.RocmSmiDevice.NewFromRocm` | src/device.rs:14-20 | a handle exactly when the count succeeds and the index is below it, holding that index and session; a failing count unchanged; an index not below the count `RsmiStatusInputOutOfBounds` |
| `Device.RocmSmiDevice.New` | src/device.rs:22-29 | a failing init first, unchanged; then the count and bounds check of `new_from_rocm` |
| `Device.OutOfBoundsIff` | src/device.rs:15-18 | `RsmiStatusInputOutOfBounds` exactly when the index is not below a successful count, or the failing count's status maps to that error |
| `Device.InitFailureComesFirst` | src/device.rs:23 | when init fails, the device count plays no part in the result |
| `Device.NewIsInitThenNewFromRocm` | src/device.rs:22-29 | after a successful init, `new` is `new_from_rocm` on the new session |
| `Device.BoundQueriesMatchSession` | src/device.rs:14-81 | a handle holds its index, which was below the count at construction, and each of its queries, asked later, is the session's query at that index |
| `Device.RocmSmiDevice.GetId` | src/device.rs:31-33 | the scalar protocol for the device-id reply at the stored index |
| `Device.RocmSmiDevice.GetName` | src/device.rs:35-37 | the string protocol for the name reply at the stored index |
| `Device.RocmSmiDevice.GetVemdorId` | src/device.rs:39-41 | the scalar protocol for the vendor-id reply at the stored index |
| `Device.RocmSmiDevice.GetBrand` | src/device.rs:43-45 | the string protocol for the brand reply at the stored index |
| `Device.RocmSmiDevice.GetVendorName` | src/device.rs:47-49 | the string protocol for the vendor-name reply at the stored index |
| `Device.RocmSmiDevice.GetVramVendorName` | src/device.rs:51-53 | the string protocol for the VRAM vendor-name reply at the stored index |
| `Device.RocmSmiDevice.GetSerialNumber` | src/device.rs:55-57 | the string protocol for the serial-number reply at the stored index |
| `Device.RocmSmiDevice.GetSubsystemId` | src/device.rs:59-61 | the scalar protocol for the subsystem-id reply at the stored index |
| `Device.RocmSmiDevice.GetSubsystemName` | src/device.rs:63-65 | the string protocol for the subsystem-name reply at the stored index |
| `Device.RocmSmiDevice.GetDrmRenderMinor` | src/device.rs:67-69 | the scalar protocol for the DRM render-minor reply at the stored index |
| `Device.RocmSmiDevice.GetSubsystemVendorId` | src/device.rs:71-73 | the scalar protocol for the subsystem vendor-id reply at the stored index |
| `Device.RocmSmiDevice.GetUniqueId` | src/device.rs:75-77 | the scalar protocol for the unique-id reply at the stored index |
| `Device.RocmSmiDevice.GetPcieData` | src/device.rs:79-81 | the PCIe query's result for the stored index |
| `Device.RocmSmiDevice.GetPowerData` | src/device.rs:83-85 | the result and the calls of `get_power` for the stored index, unchanged |

## Left out

- The foreign calls and the `unsafe` code around them are modelled only as the oracle `Bindings.Ffi`; the native library is not part of this model.
- `RocmErr::from_u16` is an uninterpreted field of the oracle, and `check_res` is taken to map a non-zero status `s` to `Err(from_u16(s))` and 0 to success: both are defined in src/error.rs, which lies outside the core modelled here. The variants of `RocmErr` beyond the two the core names are likewise assumed.
- The widths of the data fields of the C reply structures are taken from the Rust return types where they fix them: u32 for the device count and u16 for the sensor count. The power readings, caps and range are assumed to be u64 (non-negative milliwatts); no Rust signature fixes their width, since they reach Rust only through `as f64`.
- `Pcie` and `Pcie::get_pcie` are opaque and only the delegation is modelled: they are defined in src/queries/pcie.rs, which lies outside the core modelled here.
- A string reply whose region has no NUL is undefined behaviour in Rust and cannot be represented: `CString` always contains a 0.
- `Power.Watts`: `as f64 / 1000.` is modelled over exact reals, without IEEE-754 rounding.
- Thread safety of the native session is not modelled; it is concurrency inside the foreign library.
- Each oracle is a fixed snapshot of the library's replies. A later query against a different snapshot is a call with another `Ffi` value; no time or device state is modelled.
- Bound names: src/device.rs:40, 80 and 84 call `get_device_vendor_id`, `get_device_pcie_data` and `get_device_power_data`, which src/lib.rs does not define. The model binds them to `get_vendor_id`, `get_pcie_data` (src/lib.rs:55, 174) and `Power::get_power`.
- The C glue in rsmi/queries/performance.h is not modelled: none of src/lib.rs, src/device.rs or src/queries/power.rs calls it.
- The `main_test` printing harness (src/lib.rs:179-205) is not modelled, because it is I/O.
- `Device.InitFailureComesFirst`: the order of calls inside `new` is not traced. The lemma states the observable consequence instead: when `init` fails, the device count does not matter.
