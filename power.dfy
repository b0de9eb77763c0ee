/** Power telemetry of one device (src/queries/power.rs): the sensor count,
    one pass over the sensors for their power, the average power, a second
    pass for the per-sensor caps, the default cap and the cap range. Every
    foreign call is checked as it returns; the first non-zero status ends the
    whole query with its mapped error and no `Power` value. Raw readings are
    milliwatts and are reported in watts. */
module Power {
  import opened Ints
  import opened Error
  import opened Bindings
  import opened Protocol

  datatype PowerCapRange = PowerCapRange(min: real, max: real)

  datatype Power = Power(
    sensorCount: u16,
    powerAvg: real,
    powerPerSensor: seq<real>,
    currentSensorPowerCap: seq<real>,
    defaultPowerCap: real,
    powerCapRange: PowerCapRange
  ) {

    /** `Power::get_power`. `calls` records the foreign calls in the order
        they are made. */
    static method GetPower(ffi: Ffi, devId: u32) returns (r: Result<Power>, ghost calls: seq<Call>)
      ensures r == PowerOutcome(ffi, devId)
      ensures calls == PowerCalls(ffi, devId)
    {
      // `calls` stays a passing prefix of the plan (`Issued`) until a call
      // fails, and the method returns as soon as one does (`Stopped`).
      calls := [];
      var sensors := ffi.powerSensorCount(devId);
      var n := sensors.data;
      Advance(ffi, devId, calls);
      calls := calls + [SensorCount(devId)];
      :- CheckRes(ffi.fromU16, sensors.status);

      var powerPerSensor;
      powerPerSensor, calls :- PowerPerSensor(ffi, devId, n, calls);

      var avgPower := ffi.powerAvgAll(devId);
      Advance(ffi, devId, calls);
      calls := calls + [AvgPower(devId)];
      :- CheckRes(ffi.fromU16, avgPower.status);

      var currentSensorPowerCap;
      currentSensorPowerCap, calls :- CurrentSensorPowerCap(ffi, devId, n, calls);

      var defaultPowerCap := ffi.defaultPowerCap(devId);
      Advance(ffi, devId, calls);
      calls := calls + [DefaultCap(devId)];
      :- CheckRes(ffi.fromU16, defaultPowerCap.status);

      var powerCapRange := ffi.powerCapRange(devId);
      Advance(ffi, devId, calls);
      calls := calls + [CapRange(devId)];
      :- CheckRes(ffi.fromU16, powerCapRange.status);

      Finish(ffi, devId, calls);
      r := Ok(Power(
        sensorCount := n,
        powerAvg := Watts(avgPower.data),
        powerPerSensor := powerPerSensor,
        currentSensorPowerCap := currentSensorPowerCap,
        defaultPowerCap := Watts(defaultPowerCap.data),
        powerCapRange := PowerCapRange(min := Watts(powerCapRange.data1), max := Watts(powerCapRange.data2))
      ));
    }

    /** The first block of `get_power`: the power of sensors 0..n, in order,
        after the sensor count; it ends at the first failing sensor. */
    static method PowerPerSensor(ffi: Ffi, devId: u32, n: u16, ghost calls0: seq<Call>)
      returns (r: Result<seq<real>>, ghost calls: seq<Call>)
      requires n == ffi.powerSensorCount(devId).data
      requires Issued(ffi, devId, calls0) && |calls0| == 1
      ensures r.Err? ==> Stopped(ffi, devId, Err(r.error), calls)
      ensures r.Ok? ==> Issued(ffi, devId, calls) && |calls| == 1 + n as int
      ensures r.Ok? ==> r.value == SensorWatts(ffi, devId, n)
    {
      var powerAvgSensor := [];
      calls := calls0;
      for s: u16 := 0 to n
        invariant Issued(ffi, devId, calls) && |calls| == 1 + s as int
        invariant |powerAvgSensor| == s as int
        invariant forall t: u16 :: t < s ==> powerAvgSensor[t] == Watts(ffi.powerSensor(devId, t).data)
      {
        var temp := ffi.powerSensor(devId, s);
        Advance(ffi, devId, calls);
        calls := calls + [SensorPower(devId, s)];
        :- CheckRes(ffi.fromU16, temp.status);
        powerAvgSensor := powerAvgSensor + [Watts(temp.data)];
      }
      SensorWattsFrom(ffi, devId, n, powerAvgSensor);
      r := Ok(powerAvgSensor);
    }

    /** The second block of `get_power`: the cap of sensors 0..n, in order,
        after the average power; it ends at the first failing sensor. */
    static method CurrentSensorPowerCap(ffi: Ffi, devId: u32, n: u16, ghost calls0: seq<Call>)
      returns (r: Result<seq<real>>, ghost calls: seq<Call>)
      requires n == ffi.powerSensorCount(devId).data
      requires Issued(ffi, devId, calls0) && |calls0| == 2 + n as int
      ensures r.Err? ==> Stopped(ffi, devId, Err(r.error), calls)
      ensures r.Ok? ==> Issued(ffi, devId, calls) && |calls| == 2 + 2 * n as int
      ensures r.Ok? ==> r.value == CapWatts(ffi, devId, n)
    {
      var powerSensorCap := [];
      calls := calls0;
      for s: u16 := 0 to n
        invariant Issued(ffi, devId, calls) && |calls| == 2 + n as int + s as int
        invariant |powerSensorCap| == s as int
        invariant forall t: u16 :: t < s ==> powerSensorCap[t] == Watts(ffi.powerCap(devId, t).data)
      {
        var temp := ffi.powerCap(devId, s);
        Advance(ffi, devId, calls);
        calls := calls + [SensorCap(devId, s)];
        :- CheckRes(ffi.fromU16, temp.status);
        powerSensorCap := powerSensorCap + [Watts(temp.data)];
      }
      CapWattsFrom(ffi, devId, n, powerSensorCap);
      r := Ok(powerSensorCap);
    }
  }

  /** `get_sensors`: the number of power sensors of the device. */
  function GetSensors(ffi: Ffi, devId: u32): (r: Result<u16>)
    ensures ScalarProtocol(ffi.fromU16, ffi.powerSensorCount(devId), r)
  {
    var sensors := ffi.powerSensorCount(devId);
    match CheckRes(ffi.fromU16, sensors.status)
    case Fail(e) => Err(e)
    case Pass => Ok(sensors.data)
  }

  /** Milliwatts to watts, `data as f64 / 1000.`, over exact reals. */
  function Watts(milli: u64): (w: real)
    ensures w * 1000.0 == milli as real
    ensures w >= 0.0
  {
    milli as real / 1000.0
  }

  /** One foreign call made by `get_power`. */
  datatype Call =
    | SensorCount(dev: u32)
    | SensorPower(dev: u32, sensor: u16)
    | AvgPower(dev: u32)
    | SensorCap(dev: u32, sensor: u16)
    | DefaultCap(dev: u32)
    | CapRange(dev: u32)

  /** The status the native library answers to a call. */
  function StatusOf(ffi: Ffi, c: Call): u16
  {
    match c
    case SensorCount(d) => ffi.powerSensorCount(d).status
    case SensorPower(d, s) => ffi.powerSensor(d, s).status
    case AvgPower(d) => ffi.powerAvgAll(d).status
    case SensorCap(d, s) => ffi.powerCap(d, s).status
    case DefaultCap(d) => ffi.defaultPowerCap(d).status
    case CapRange(d) => ffi.powerCapRange(d).status
  }

  /** The `j`-th call `get_power` makes for a device with `n` sensors when
      none of them fails: the count, the power of sensors 0..n, the average,
      the cap of sensors 0..n, the default cap and the cap range. */
  function PlanAt(dev: u32, n: u16, j: nat): Call
    requires j < 2 * n as int + 4
  {
    if j == 0 then SensorCount(dev)
    else if j <= n as int then SensorPower(dev, (j - 1) as u16)
    else if j == n as int + 1 then AvgPower(dev)
    else if j <= 2 * n as int + 1 then SensorCap(dev, (j - n as int - 2) as u16)
    else if j == 2 * n as int + 2 then DefaultCap(dev)
    else CapRange(dev)
  }

  /** The whole order of calls for a device with `n` sensors. */
  function CallPlan(dev: u32, n: u16): (p: seq<Call>)
    ensures |p| == 2 * n as int + 4
  {
    seq(2 * n as int + 4, j requires 0 <= j < 2 * n as int + 4 => PlanAt(dev, n, j))
  }

  /** The plan for the device, with the sensor count it reports (if the
      count call fails, only its first entry is ever reached). */
  function PowerPlan(ffi: Ffi, dev: u32): (p: seq<Call>)
    ensures var n := ffi.powerSensorCount(dev).data;
      && |p| == 2 * n as int + 4
      && p[0] == SensorCount(dev)
      && (forall s: u16 :: s < n ==> p[1 + s as int] == SensorPower(dev, s))
      && p[n as int + 1] == AvgPower(dev)
      && (forall s: u16 :: s < n ==> p[n as int + 2 + s as int] == SensorCap(dev, s))
      && p[2 * n as int + 2] == DefaultCap(dev)
      && p[2 * n as int + 3] == CapRange(dev)
  {
    CallPlan(dev, ffi.powerSensorCount(dev).data)
  }

  /** An entry of the plan, by the position rule of `PlanAt`. */
  lemma PlanEntry(ffi: Ffi, dev: u32, j: nat)
    requires j < |PowerPlan(ffi, dev)|
    ensures PowerPlan(ffi, dev)[j] == PlanAt(dev, ffi.powerSensorCount(dev).data, j)
  {
  }

  /** The position of the first call of `p` with a non-zero status, or |p|
      when every call succeeds. */
  function FirstFailure(ffi: Ffi, p: seq<Call>): (i: nat)
    ensures i <= |p|
    ensures i < |p| ==> StatusOf(ffi, p[i]) != 0
  {
    if p == [] then 0
    else if StatusOf(ffi, p[0]) != 0 then 0
    else 1 + FirstFailure(ffi, p[1..])
  }

  /** Every call before the first failure passes, all at once. */
  lemma PassedBeforeFirstFailure(ffi: Ffi, p: seq<Call>)
    ensures forall j :: 0 <= j < FirstFailure(ffi, p) ==> StatusOf(ffi, p[j]) == 0
  {
    forall j | 0 <= j < FirstFailure(ffi, p) ensures StatusOf(ffi, p[j]) == 0 {
      BeforeFirstFailure(ffi, p, j);
    }
  }

  /** Every call before the first failure passes. */
  lemma {:induction false} BeforeFirstFailure(ffi: Ffi, p: seq<Call>, j: nat)
    requires j < FirstFailure(ffi, p)
    ensures StatusOf(ffi, p[j]) == 0
  {
    if j > 0 {
      BeforeFirstFailure(ffi, p[1..], j - 1);
    }
  }

  /** A failing call with only passing calls before it is the first failure. */
  lemma {:induction false} FirstFailureAt(ffi: Ffi, p: seq<Call>, i: nat)
    requires i < |p| && StatusOf(ffi, p[i]) != 0
    requires forall j :: 0 <= j < i ==> StatusOf(ffi, p[j]) == 0
    ensures FirstFailure(ffi, p) == i
  {
    if i > 0 {
      assert StatusOf(ffi, p[0]) == 0;
      FirstFailureAt(ffi, p[1..], i - 1);
    }
  }

  /** The calls made so far are a prefix of the plan and all of them
      passed. */
  ghost predicate Issued(ffi: Ffi, dev: u32, calls: seq<Call>)
  {
    var plan := PowerPlan(ffi, dev);
    |calls| <= |plan| && calls == plan[..|calls|] && FirstFailure(ffi, plan) >= |calls|
  }

  /** `get_power` may stop here: `r` and `calls` are its result and its
      calls. */
  ghost predicate Stopped(ffi: Ffi, dev: u32, r: Result<Power>, calls: seq<Call>)
  {
    r == PowerOutcome(ffi, dev) && calls == PowerCalls(ffi, dev)
  }

  /** Issuing the plan's next call after a passing prefix: if it fails,
      the run stops there with its mapped status; if it passes, the prefix
      grows by it. */
  lemma Advance(ffi: Ffi, dev: u32, calls: seq<Call>)
    requires Issued(ffi, dev, calls) && |calls| < |PowerPlan(ffi, dev)|
    ensures var plan := PowerPlan(ffi, dev); var c := plan[|calls|];
      && (StatusOf(ffi, c) != 0 ==> Stopped(ffi, dev, Err(ffi.fromU16(StatusOf(ffi, c))), calls + [c]))
      && (StatusOf(ffi, c) == 0 ==> Issued(ffi, dev, calls + [c]))
  {
    var plan := PowerPlan(ffi, dev);
    var k := |calls|;
    assert calls + [plan[k]] == plan[..k + 1];
    if FirstFailure(ffi, plan) > k {
      BeforeFirstFailure(ffi, plan, k);
    } else {
      assert FirstFailure(ffi, plan) == k;
    }
  }

  /** A passing prefix as long as the plan is the whole run. */
  lemma Finish(ffi: Ffi, dev: u32, calls: seq<Call>)
    requires Issued(ffi, dev, calls) && |calls| == |PowerPlan(ffi, dev)|
    ensures calls == PowerCalls(ffi, dev)
    ensures PowerOutcome(ffi, dev) == Ok(Assemble(ffi, dev))
  {
  }

  /** The power readings of sensors 0..n in watts. */
  function SensorWatts(ffi: Ffi, dev: u32, n: u16): seq<real>
  {
    seq(n as int, s requires 0 <= s < n as int => Watts(ffi.powerSensor(dev, s as u16).data))
  }

  /** The caps of sensors 0..n in watts. */
  function CapWatts(ffi: Ffi, dev: u32, n: u16): seq<real>
  {
    seq(n as int, s requires 0 <= s < n as int => Watts(ffi.powerCap(dev, s as u16).data))
  }

  lemma SensorWattsFrom(ffi: Ffi, dev: u32, n: u16, xs: seq<real>)
    requires |xs| == n as int
    requires forall t: u16 :: t < n ==> xs[t] == Watts(ffi.powerSensor(dev, t).data)
    ensures xs == SensorWatts(ffi, dev, n)
  {
    forall i | 0 <= i < n as int ensures xs[i] == SensorWatts(ffi, dev, n)[i] {
      assert xs[i as u16] == Watts(ffi.powerSensor(dev, i as u16).data);
    }
  }

  lemma CapWattsFrom(ffi: Ffi, dev: u32, n: u16, xs: seq<real>)
    requires |xs| == n as int
    requires forall t: u16 :: t < n ==> xs[t] == Watts(ffi.powerCap(dev, t).data)
    ensures xs == CapWatts(ffi, dev, n)
  {
    forall i | 0 <= i < n as int ensures xs[i] == CapWatts(ffi, dev, n)[i] {
      assert xs[i as u16] == Watts(ffi.powerCap(dev, i as u16).data);
    }
  }

  /** The record assembled from the replies when every call succeeds. */
  function Assemble(ffi: Ffi, dev: u32): (v: Power)
    ensures var n := ffi.powerSensorCount(dev).data;
      && v.sensorCount == n
      && |v.powerPerSensor| == n as int
      && |v.currentSensorPowerCap| == n as int
      && (forall s: u16 :: s < n ==> v.powerPerSensor[s] == Watts(ffi.powerSensor(dev, s).data))
      && (forall s: u16 :: s < n ==> v.currentSensorPowerCap[s] == Watts(ffi.powerCap(dev, s).data))
  {
    var n := ffi.powerSensorCount(dev).data;
    var range := ffi.powerCapRange(dev);
    Power(
      sensorCount := n,
      powerAvg := Watts(ffi.powerAvgAll(dev).data),
      powerPerSensor := SensorWatts(ffi, dev, n),
      currentSensorPowerCap := CapWatts(ffi, dev, n),
      defaultPowerCap := Watts(ffi.defaultPowerCap(dev).data),
      powerCapRange := PowerCapRange(min := Watts(range.data1), max := Watts(range.data2))
    )
  }

  /** The calls `get_power` makes for the device: the plan up to and
      including its first failing call, or the whole plan. Every call but
      the last passed, and the last one failed unless the plan ran out. */
  function PowerCalls(ffi: Ffi, dev: u32): (calls: seq<Call>)
    ensures var p := PowerPlan(ffi, dev);
      && 1 <= |calls| <= |p|
      && calls == p[..|calls|]
      && (forall j :: 0 <= j < |calls| - 1 ==> StatusOf(ffi, calls[j]) == 0)
      && (|calls| < |p| ==> StatusOf(ffi, calls[|calls| - 1]) != 0)
  {
    var p := PowerPlan(ffi, dev);
    var i := FirstFailure(ffi, p);
    PassedBeforeFirstFailure(ffi, p);
    if i < |p| then p[..i + 1] else p
  }

  /** What `get_power` returns: the mapped status of the first failing call
      of the plan, or, exactly when every call of the plan passes, the
      assembled record. */
  function PowerOutcome(ffi: Ffi, dev: u32): (r: Result<Power>)
    ensures var p := PowerPlan(ffi, dev);
      && (r.Ok? <==> forall j :: 0 <= j < |p| ==> StatusOf(ffi, p[j]) == 0)
      && (r.Ok? ==> r.value == Assemble(ffi, dev))
      && (r.Err? ==> FirstFailure(ffi, p) < |p| && r.error == ffi.fromU16(StatusOf(ffi, p[FirstFailure(ffi, p)])))
  {
    var p := PowerPlan(ffi, dev);
    var i := FirstFailure(ffi, p);
    PassedBeforeFirstFailure(ffi, p);
    if i < |p| then Err(ffi.fromU16(StatusOf(ffi, p[i]))) else Ok(Assemble(ffi, dev))
  }

  // Properties of `get_power`, stated over the replies of the native library.

  /** Running the plan stops at call `k` when that call fails and every call
      before it passes. */
  lemma StopsAt(ffi: Ffi, dev: u32, k: nat)
    requires k < |PowerPlan(ffi, dev)|
    requires StatusOf(ffi, PowerPlan(ffi, dev)[k]) != 0
    requires forall j :: 0 <= j < k ==> StatusOf(ffi, PowerPlan(ffi, dev)[j]) == 0
    ensures PowerOutcome(ffi, dev) == Err(ffi.fromU16(StatusOf(ffi, PowerPlan(ffi, dev)[k])))
    ensures PowerCalls(ffi, dev) == PowerPlan(ffi, dev)[..k + 1]
  {
    FirstFailureAt(ffi, PowerPlan(ffi, dev), k);
  }

  /** A failing sensor count is returned mapped, and nothing else is asked
      of the library. */
  lemma CountFailure(ffi: Ffi, dev: u32)
    requires ffi.powerSensorCount(dev).status != 0
    ensures PowerOutcome(ffi, dev) == Err(ffi.fromU16(ffi.powerSensorCount(dev).status))
    ensures PowerCalls(ffi, dev) == [SensorCount(dev)]
  {
    StopsAt(ffi, dev, 0);
  }

  /** The first failing sensor `s` of the power pass decides the error; the
      calls are the count and sensors 0..s, so no later sensor, no average
      and no cap is read. */
  lemma SensorFailure(ffi: Ffi, dev: u32, s: u16)
    requires ffi.powerSensorCount(dev).status == 0
    requires s < ffi.powerSensorCount(dev).data
    requires forall t: u16 :: t < s ==> ffi.powerSensor(dev, t).status == 0
    requires ffi.powerSensor(dev, s).status != 0
    ensures PowerOutcome(ffi, dev) == Err(ffi.fromU16(ffi.powerSensor(dev, s).status))
    ensures var calls := PowerCalls(ffi, dev);
      && |calls| == s as int + 2
      && calls[0] == SensorCount(dev)
      && (forall t: u16 :: t <= s ==> calls[t as int + 1] == SensorPower(dev, t))
    ensures forall c :: c in PowerCalls(ffi, dev) ==> c == SensorCount(dev) || (c.SensorPower? && c.sensor <= s)
  {
    var plan := PowerPlan(ffi, dev);
    forall j | 0 <= j < s as int + 1 ensures StatusOf(ffi, plan[j]) == 0 {
      if j > 0 {
        assert plan[j] == SensorPower(dev, (j - 1) as u16);
      }
    }
    assert plan[s as int + 1] == SensorPower(dev, s);
    StopsAt(ffi, dev, s as int + 1);
    var calls := PowerCalls(ffi, dev);
    forall t: u16 | t <= s ensures calls[t as int + 1] == SensorPower(dev, t) {
      assert calls[t as int + 1] == plan[t as int + 1];
    }
    forall c | c in calls ensures c == SensorCount(dev) || (c.SensorPower? && c.sensor <= s) {
      var j :| 0 <= j < |calls| && calls[j] == c;
      if j > 0 {
        assert c == calls[(j - 1) as u16 as int + 1];
      }
    }
  }

  /** The first failing sensor `s` of the cap pass decides the error; the
      calls are the whole power pass, the average and caps 0..s, so neither
      the default cap nor the range is read. */
  lemma CapFailure(ffi: Ffi, dev: u32, s: u16)
    requires ffi.powerSensorCount(dev).status == 0
    requires s < ffi.powerSensorCount(dev).data
    requires forall t: u16 :: t < ffi.powerSensorCount(dev).data ==> ffi.powerSensor(dev, t).status == 0
    requires ffi.powerAvgAll(dev).status == 0
    requires forall t: u16 :: t < s ==> ffi.powerCap(dev, t).status == 0
    requires ffi.powerCap(dev, s).status != 0
    ensures PowerOutcome(ffi, dev) == Err(ffi.fromU16(ffi.powerCap(dev, s).status))
    ensures var n := ffi.powerSensorCount(dev).data; var calls := PowerCalls(ffi, dev);
      && |calls| == n as int + s as int + 3
      && calls == CallPlan(dev, n)[..n as int + s as int + 3]
      && calls[n as int + s as int + 2] == SensorCap(dev, s)
    ensures DefaultCap(dev) !in PowerCalls(ffi, dev) && CapRange(dev) !in PowerCalls(ffi, dev)
  {
    var n := ffi.powerSensorCount(dev).data;
    var plan := PowerPlan(ffi, dev);
    var k := n as int + s as int + 2;
    forall j | 0 <= j < k ensures StatusOf(ffi, plan[j]) == 0 && !plan[j].DefaultCap? && !plan[j].CapRange? {
      PlanEntry(ffi, dev, j);
    }
    assert plan[k] == SensorCap(dev, s);
    StopsAt(ffi, dev, k);
    var calls := PowerCalls(ffi, dev);
    forall j | 0 <= j < |calls| ensures !calls[j].DefaultCap? && !calls[j].CapRange? {
      assert calls[j] == plan[j];
    }
  }

  /** `get_power` succeeds exactly when every one of its calls passes: the
      count, the power of every sensor, the average, the cap of every
      sensor, the default cap and the range. */
  lemma OkIffEveryCallPasses(ffi: Ffi, dev: u32)
    ensures var n := ffi.powerSensorCount(dev).data;
      PowerOutcome(ffi, dev).Ok? <==>
        && ffi.powerSensorCount(dev).status == 0
        && (forall t: u16 :: t < n ==> ffi.powerSensor(dev, t).status == 0)
        && ffi.powerAvgAll(dev).status == 0
        && (forall t: u16 :: t < n ==> ffi.powerCap(dev, t).status == 0)
        && ffi.defaultPowerCap(dev).status == 0
        && ffi.powerCapRange(dev).status == 0
  {
    var n := ffi.powerSensorCount(dev).data;
    var plan := PowerPlan(ffi, dev);
    if PowerOutcome(ffi, dev).Ok? {
      forall t: u16 | t < n ensures ffi.powerSensor(dev, t).status == 0 {
        assert StatusOf(ffi, plan[1 + t as int]) == 0;
      }
      forall t: u16 | t < n ensures ffi.powerCap(dev, t).status == 0 {
        assert StatusOf(ffi, plan[n as int + 2 + t as int]) == 0;
      }
      assert StatusOf(ffi, plan[0]) == 0 && StatusOf(ffi, plan[n as int + 1]) == 0;
      assert StatusOf(ffi, plan[2 * n as int + 2]) == 0 && StatusOf(ffi, plan[2 * n as int + 3]) == 0;
    }
    if
      && ffi.powerSensorCount(dev).status == 0
      && (forall t: u16 :: t < n ==> ffi.powerSensor(dev, t).status == 0)
      && ffi.powerAvgAll(dev).status == 0
      && (forall t: u16 :: t < n ==> ffi.powerCap(dev, t).status == 0)
      && ffi.defaultPowerCap(dev).status == 0
      && ffi.powerCapRange(dev).status == 0
    {
      forall j | 0 <= j < |plan| ensures StatusOf(ffi, plan[j]) == 0 {
        PlanEntry(ffi, dev, j);
      }
    }
  }

  /** A successful `get_power` reports the count it read, one reading and
      one cap per sensor in sensor order, each converted to watts, the
      average, default cap and range in watts, and has made every call of
      the plan in order. */
  lemma SuccessRecord(ffi: Ffi, dev: u32)
    requires PowerOutcome(ffi, dev).Ok?
    ensures var v := PowerOutcome(ffi, dev).value; var n := ffi.powerSensorCount(dev).data;
      && v.sensorCount == n
      && |v.powerPerSensor| == n as int
      && |v.currentSensorPowerCap| == n as int
      && (forall t: u16 :: t < n ==> v.powerPerSensor[t] == Watts(ffi.powerSensor(dev, t).data))
      && (forall t: u16 :: t < n ==> v.currentSensorPowerCap[t] == Watts(ffi.powerCap(dev, t).data))
      && v.powerAvg == Watts(ffi.powerAvgAll(dev).data)
      && v.defaultPowerCap == Watts(ffi.defaultPowerCap(dev).data)
      && v.powerCapRange == PowerCapRange(Watts(ffi.powerCapRange(dev).data1), Watts(ffi.powerCapRange(dev).data2))
    ensures PowerCalls(ffi, dev) == CallPlan(dev, ffi.powerSensorCount(dev).data)
  {
  }

  /** Whatever happens, the calls made are a non-empty prefix of the plan in
      which every call but the last passed; the query fails exactly when the
      last one failed, and then with that call's mapped status. */
  lemma FailFast(ffi: Ffi, dev: u32)
    ensures var calls := PowerCalls(ffi, dev); var plan := PowerPlan(ffi, dev);
      && 1 <= |calls| <= |plan|
      && calls == plan[..|calls|]
      && (forall j :: 0 <= j < |calls| - 1 ==> StatusOf(ffi, calls[j]) == 0)
      && (PowerOutcome(ffi, dev).Err? <==> StatusOf(ffi, calls[|calls| - 1]) != 0)
      && (PowerOutcome(ffi, dev).Err? ==>
            PowerOutcome(ffi, dev).error == ffi.fromU16(StatusOf(ffi, calls[|calls| - 1])))
  {
    var calls := PowerCalls(ffi, dev);
    var plan := PowerPlan(ffi, dev);
    var i := FirstFailure(ffi, plan);
    forall j | 0 <= j < |calls| - 1 ensures StatusOf(ffi, calls[j]) == 0 {
      BeforeFirstFailure(ffi, plan, j);
    }
    if i == |plan| {
      BeforeFirstFailure(ffi, plan, |plan| - 1);
    }
  }

  /** Three sensors, and the second one fails with status 12: the error is
      the mapping of 12, and the third sensor, the average and the caps are
      never read. */
  lemma FailFastExample(ffi: Ffi, dev: u32)
    requires ffi.powerSensorCount(dev) == Reply(0, 3)
    requires ffi.powerSensor(dev, 0).status == 0
    requires ffi.powerSensor(dev, 1).status == 12
    ensures PowerOutcome(ffi, dev) == Err(ffi.fromU16(12))
    ensures PowerCalls(ffi, dev) == [SensorCount(dev), SensorPower(dev, 0), SensorPower(dev, 1)]
  {
    SensorFailure(ffi, dev, 1);
    var calls := PowerCalls(ffi, dev);
    assert calls[1] == SensorPower(dev, 0) && calls[2] == SensorPower(dev, 1);
  }

  /** 5000 mW is reported as 5 W. */
  lemma WattsExample()
    ensures Watts(5000) == 5.0
  {
  }
}
