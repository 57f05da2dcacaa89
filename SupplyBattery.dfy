/**
 * The Linux power-supply battery driver: the device record with the state it
 * keeps between calls, the design-voltage fallback chain, the refresh that
 * turns sysfs attributes into a battery record and readings, the charge
 * threshold writes, and the coldplug eligibility test.
 */
module SupplyBattery {
  import opened Wrappers
  import opened Strings
  import opened Numbers
  import opened Sysfs
  import opened ChargeTypes
  import opened ChargeLimit

  /** UpBatteryUnit; the zero value of a fresh record is the unknown unit. */
  datatype Units = UnknownUnits | Energy | Charge

  /** UpDeviceState. */
  datatype DeviceState = UnknownState | Charging | Discharging | Empty | FullyCharged | PendingCharge | PendingDischarge

  /**
   * UpBatteryInfo. Vendor, model, serial, technology are the stripped
   * attribute texts; energy figures are in Wh (or Ah when `units` is Charge),
   * voltages in V, thresholds in percent.
   */
  datatype BatteryInfo = BatteryInfo(
    present: bool,
    vendor: Option<string>,
    model: Option<string>,
    serial: Option<string>,
    voltageDesign: real,
    chargeCycles: int,
    units: Units,
    energyFull: Double,
    energyDesign: Double,
    technology: Option<string>,
    voltageMaxDesign: Double,
    voltageMinDesign: Double,
    chargeControlSupported: bool,
    chargeControlEnabled: bool,
    startThreshold: Double,
    endThreshold: Double,
    thresholdSettings: bv32)

  /** The zero-initialised record (`UpBatteryInfo info = { 0 }`). */
  const ZERO_INFO := BatteryInfo(false, None, None, None, 0.0, 0, UnknownUnits, Num(0.0), Num(0.0), None,
                                 Num(0.0), Num(0.0), false, false, Num(0.0), Num(0.0), 0)

  /** UpBatteryValues: rate in W (or A), current energy in Wh (or Ah), temperature in °C. */
  datatype BatteryValues = BatteryValues(
    units: Units,
    voltage: Double,
    capacityLevel: Option<string>,
    energyRate: Double,
    energyCur: Double,
    percentage: real,
    state: DeviceState,
    temperature: Double)

  /** The zero-initialised record (`UpBatteryValues values = { 0 }`). */
  const ZERO_VALUES := BatteryValues(UnknownUnits, Num(0.0), None, Num(0.0), Num(0.0), 0.0, UnknownState, Num(0.0))

  // ---------------------------------------------------------------------
  // Design voltage

  /** The voltages tried in order: maximum design, minimum design, present. */
  function VoltageCandidates(d: Device): seq<Double> {
    [Micro(d, "voltage_max_design"), Micro(d, "voltage_min_design"), Micro(d, "voltage_now")]
  }

  /** The first candidate above 1 V, if any. */
  function FirstAboveOneVolt(candidates: seq<Double>): (r: Option<real>)
    ensures r.Some? ==> r.value > 1.0 && Num(r.value) in candidates
    ensures r.Some? ==> exists i :: 0 <= i < |candidates| && candidates[i] == Num(r.value)
                                    && forall k :: 0 <= k < i ==> !Greater(candidates[k], 1.0)
    ensures r.None? <==> forall k :: 0 <= k < |candidates| ==> !Greater(candidates[k], 1.0)
  {
    if candidates == [] then None
    else if Greater(candidates[0], 1.0) then Some(candidates[0].v)
    else
      var r := FirstAboveOneVolt(candidates[1..]);
      if r.Some? then FirstAboveShifts(candidates, r.value); r else r
  }

  /** A first match in the tail is a first match in the whole list when the head does not match. */
  lemma FirstAboveShifts(candidates: seq<Double>, v: real)
    requires candidates != [] && !Greater(candidates[0], 1.0)
    requires exists i :: 0 <= i < |candidates[1..]| && candidates[1..][i] == Num(v)
                         && forall k :: 0 <= k < i ==> !Greater(candidates[1..][k], 1.0)
    ensures exists i :: 0 <= i < |candidates| && candidates[i] == Num(v)
                        && forall k :: 0 <= k < i ==> !Greater(candidates[k], 1.0)
  {
    var i :| 0 <= i < |candidates[1..]| && candidates[1..][i] == Num(v)
             && forall k :: 0 <= k < i ==> !Greater(candidates[1..][k], 1.0);
    assert candidates[i + 1] == Num(v);
    forall k | 0 <= k < i + 1
      ensures !Greater(candidates[k], 1.0)
    {
      if k > 0 {
        assert candidates[k] == candidates[1..][k - 1];
      }
    }
  }

  /** The device's type attribute reads "USB" in some case. */
  predicate IsUsb(d: Device) {
    Attr(d, "type").Some? && EqualsIgnoreCase(Attr(d, "type").value, "USB")
  }

  /** No reading is above 1 V and the device is not USB: the driver guesses 10 V. */
  predicate GuessesVoltage(d: Device) {
    !Greater(Micro(d, "voltage_max_design"), 1.0) && !Greater(Micro(d, "voltage_min_design"), 1.0)
    && !Greater(Micro(d, "voltage_now"), 1.0) && !IsUsb(d)
  }

  /**
   * up_device_supply_battery_get_design_voltage without its warning latch:
   * the first candidate above 1 V, else 5 V for USB, else 10 V.
   */
  function DesignVoltage(d: Device): (v: real)
    ensures v > 1.0
  {
    var maxDesign := Micro(d, "voltage_max_design");
    var minDesign := Micro(d, "voltage_min_design");
    var now := Micro(d, "voltage_now");
    if Greater(maxDesign, 1.0) then maxDesign.v
    else if Greater(minDesign, 1.0) then minDesign.v
    else if Greater(now, 1.0) then now.v
    else if IsUsb(d) then 5.0
    else 10.0
  }

  /** The fallback chain agrees with the search over the candidate list, then USB, then the guess. */
  lemma DesignVoltageIsFirstAbove(d: Device)
    ensures FirstAboveOneVolt(VoltageCandidates(d)).Some? ==> DesignVoltage(d) == FirstAboveOneVolt(VoltageCandidates(d)).value
    ensures FirstAboveOneVolt(VoltageCandidates(d)).None? ==> DesignVoltage(d) == if IsUsb(d) then 5.0 else 10.0
    ensures GuessesVoltage(d) <==> FirstAboveOneVolt(VoltageCandidates(d)).None? && !IsUsb(d)
  {
    FirstAboveOfThree(Micro(d, "voltage_max_design"), Micro(d, "voltage_min_design"), Micro(d, "voltage_now"));
  }

  /** The search over three candidates, written out. */
  lemma FirstAboveOfThree(a: Double, b: Double, c: Double)
    ensures FirstAboveOneVolt([a, b, c]) == if Greater(a, 1.0) then Some(a.v)
                                            else if Greater(b, 1.0) then Some(b.v)
                                            else if Greater(c, 1.0) then Some(c.v)
                                            else None
  {
    assert [c][1..] == [];
    assert FirstAboveOneVolt([c]) == if Greater(c, 1.0) then Some(c.v) else None;
    assert [b, c][1..] == [c];
    assert FirstAboveOneVolt([b, c]) == if Greater(b, 1.0) then Some(b.v) else FirstAboveOneVolt([c]);
    assert [a, b, c][1..] == [b, c];
  }

  // ---------------------------------------------------------------------
  // What a refresh computes

  /** The "present" attribute, when there is one, must read true. */
  predicate IsPresent(d: Device) {
    !Has(d, "present") || AttrBool(d, "present")
  }

  /** The tokens of the charge_types attribute; none when it is missing. */
  function ChargeTypeTokens(d: Device): seq<string> {
    match Attr(d, "charge_types")
    case None => []
    case Some(text) => Split(text, ' ')
  }

  /** Threshold control through charge_types, given the supported set after this refresh's parse. */
  predicate ByChargeType(d: Device, supported: Flags) {
    IsThresholdByChargeType(Has(d, "charge_control_start_threshold"), Has(d, "charge_control_end_threshold"), supported)
  }

  /** The unit: Charge exactly when energy_full is below 0.01 Wh (NaN is not below). */
  function UnitsOf(d: Device): (u: Units)
    ensures u == Energy || u == Charge
  {
    if Less(Micro(d, "energy_full"), 0.01) then Charge else Energy
  }

  /** The full capacity in the record's unit: the charge figure in Charge units, the energy figure otherwise. */
  function FullCapacity(d: Device, units: Units): Double {
    if units == Charge then Micro(d, "charge_full") else Micro(d, "energy_full")
  }

  /** The design capacity in the record's unit. */
  function DesignCapacity(d: Device, units: Units): Double {
    if units == Charge then Micro(d, "charge_full_design") else Micro(d, "energy_full_design")
  }

  /** The reported thresholds from the udev CHARGE_LIMIT property (zero without it) and the setting bits, CHARGE_TYPES among them when charge_types exists. */
  function ReportedLimits(d: Device): ControlLimits {
    var parsed := GetChargeControlLimits(d).GetOr(ControlLimits(Limits(Num(0.0), Num(0.0)), 0));
    parsed.(settings := parsed.settings | if Has(d, "charge_types") then CHARGE_TYPES_SETTING else 0)
  }

  /** The battery record a refresh of a present battery reports, `supported` being the charge types after its parse. */
  function StaticInfo(d: Device, supported: Flags): (info: BatteryInfo)
    ensures info.present && !info.chargeControlEnabled
    ensures info.voltageDesign > 1.0
    ensures info.units == Charge <==> Less(Micro(d, "energy_full"), 0.01)
    ensures info.units == Energy || info.units == Charge
    ensures info.energyFull == if info.units == Charge then Micro(d, "charge_full") else Micro(d, "energy_full")
  {
    var units := UnitsOf(d);
    var thresholds := ReportedLimits(d);
    BatteryInfo(
      present := true,
      vendor := AttrStripped(d, "manufacturer"),
      model := AttrStripped(d, "model_name"),
      serial := AttrStripped(d, "serial_number"),
      voltageDesign := DesignVoltage(d),
      chargeCycles := AttrInt(d, "cycle_count"),
      units := units,
      energyFull := FullCapacity(d, units),
      energyDesign := DesignCapacity(d, units),
      technology := AttrStripped(d, "technology"),
      voltageMaxDesign := Micro(d, "voltage_max_design"),
      voltageMinDesign := Micro(d, "voltage_min_design"),
      chargeControlSupported := GetChargeControlLimits(d).Some? || ByChargeType(d, supported),
      chargeControlEnabled := false,
      startThreshold := thresholds.limits.start,
      endThreshold := thresholds.limits.end,
      thresholdSettings := thresholds.settings)
  }

  /** A present battery's record: a design voltage above 1 V, a known unit, charge control never reported enabled. */
  lemma InfoBasics(d: Device, supported: Flags)
    ensures StaticInfo(d, supported).present
    ensures StaticInfo(d, supported).voltageDesign > 1.0
    ensures StaticInfo(d, supported).units == Energy || StaticInfo(d, supported).units == Charge
    ensures !StaticInfo(d, supported).chargeControlEnabled
  {
  }

  /**
   * Charge control is reported supported exactly when CHARGE_LIMIT parses
   * or thresholds go through charge_types; reported thresholds always lie in
   * [0, 100] or are unset or NaN; the CHARGE_TYPES setting bit is reported
   * exactly when charge_types exists.
   */
  lemma InfoChargeControl(d: Device, supported: Flags)
    ensures StaticInfo(d, supported).chargeControlSupported
            <==> GetChargeControlLimits(d).Some? || ByChargeType(d, supported)
    ensures IsThreshold(StaticInfo(d, supported).startThreshold)
    ensures IsThreshold(StaticInfo(d, supported).endThreshold)
    ensures StaticInfo(d, supported).thresholdSettings & CHARGE_TYPES_SETTING != 0 <==> Has(d, "charge_types")
  {
    ReportedLimitsInRange(d);
  }

  /** The reported thresholds are valid ones, and the CHARGE_TYPES bit is set exactly when charge_types exists. */
  lemma ReportedLimitsInRange(d: Device)
    ensures IsThreshold(ReportedLimits(d).limits.start) && IsThreshold(ReportedLimits(d).limits.end)
    ensures ReportedLimits(d).settings & CHARGE_TYPES_SETTING != 0 <==> Has(d, "charge_types")
  {
    var parsed := GetChargeControlLimits(d).GetOr(ControlLimits(Limits(Num(0.0), Num(0.0)), 0));
    assert IsThreshold(parsed.limits.start) && IsThreshold(parsed.limits.end);
    assert parsed.settings & CHARGE_TYPES_SETTING == 0;
  }

  /** CLAMP (capacity, 0, 100) with NaN read as 0; untouched (zero) when the system percentage is ignored. */
  function Percentage(d: Device, ignoreSystemPercentage: bool): (p: real)
    ensures 0.0 <= p <= 100.0
    ensures ignoreSystemPercentage ==> p == 0.0
    ensures !ignoreSystemPercentage ==> match AttrDouble(d, "capacity")
      case NaN => p == 0.0
      case Num(c) => p == if c < 0.0 then 0.0 else if c > 100.0 then 100.0 else c
  {
    if ignoreSystemPercentage then 0.0
    else
      var capacity := AttrDouble(d, "capacity");
      var c := if capacity.NaN? then 0.0 else capacity.v;
      if c > 100.0 then 100.0 else if c < 0.0 then 0.0 else c
  }

  /** The classifier's state, forced to Discharging when current flows out of a battery that is not full. */
  function CorrectedState(classified: DeviceState, currentNow: Double): (s: DeviceState)
    ensures s == classified || s == Discharging
    ensures classified == FullyCharged ==> s == FullyCharged
    ensures s == Discharging <==> classified == Discharging || (classified != FullyCharged && Less(currentNow, 0.0))
  {
    if classified != FullyCharged && Less(currentNow, 0.0) then Discharging else classified
  }

  /** The rate: |current_now| for Charge; |power_now| for Energy, with current_now as the legacy fallback. */
  function EnergyRate(d: Device, units: Units): (r: Double)
    requires units == Energy || units == Charge
    ensures r.NaN? || r.v >= 0.0
    ensures units == Charge ==> r == Abs(Micro(d, "current_now"))
    ensures units == Energy ==> r == Abs(Micro(d, "power_now"))
  {
    if units == Charge then Abs(Micro(d, "current_now"))
    else
      var rate := Abs(Micro(d, "power_now"));
      if Less(rate, 0.0) then Abs(Micro(d, "current_now")) else rate
  }

  /** The stored energy: |charge_now| for Charge; |energy_now| for Energy, falling back to energy_avg below 0.01. */
  function EnergyCur(d: Device, units: Units): (r: Double)
    requires units == Energy || units == Charge
    ensures units == Energy && !Less(Abs(Micro(d, "energy_now")), 0.01) ==> r == Abs(Micro(d, "energy_now"))
    ensures units == Energy && Less(Abs(Micro(d, "energy_now")), 0.01) ==> r == Micro(d, "energy_avg")
  {
    if units == Charge then Abs(Micro(d, "charge_now"))
    else
      var cur := Abs(Micro(d, "energy_now"));
      if Less(cur, 0.01) then Micro(d, "energy_avg") else cur
  }

  /** The present voltage, falling back to the average below 0.01 V. */
  function Voltage(d: Device): (v: Double)
    ensures !Less(Micro(d, "voltage_now"), 0.01) ==> v == Micro(d, "voltage_now")
    ensures Less(Micro(d, "voltage_now"), 0.01) ==> v == Micro(d, "voltage_avg")
  {
    var now := Micro(d, "voltage_now");
    if Less(now, 0.01) then Micro(d, "voltage_avg") else now
  }

  /** The readings a refresh of a present battery reports. */
  function DynamicValues(d: Device, units: Units, ignoreSystemPercentage: bool, classified: DeviceState): (v: BatteryValues)
    requires units == Energy || units == Charge
    ensures v.units == units && 0.0 <= v.percentage <= 100.0
    ensures v.energyRate.NaN? || v.energyRate.v >= 0.0
  {
    BatteryValues(
      units := units,
      voltage := Voltage(d),
      capacityLevel := AttrStripped(d, "capacity_level"),
      energyRate := EnergyRate(d, units),
      energyCur := EnergyCur(d, units),
      percentage := Percentage(d, ignoreSystemPercentage),
      state := CorrectedState(classified, AttrDouble(d, "current_now")),
      temperature := Div(AttrDouble(d, "temp"), 10.0))
  }

  /**
   * The legacy branch that reads current_now as a power in Energy units
   * never runs: the rate is a fabs result, which is never negative.
   */
  lemma LegacyRateBranchUnreachable(d: Device)
    ensures EnergyRate(d, Energy) == Abs(Micro(d, "power_now"))
  {
  }

  /** The rate and stored energy come from the charge attributes in Charge units and the energy ones otherwise. */
  lemma RateFollowsUnits(d: Device)
    ensures UnitsOf(d) == Charge ==> EnergyRate(d, UnitsOf(d)) == Abs(Micro(d, "current_now"))
                                     && EnergyCur(d, UnitsOf(d)) == Abs(Micro(d, "charge_now"))
                                     && FullCapacity(d, UnitsOf(d)) == Micro(d, "charge_full")
    ensures UnitsOf(d) == Energy ==> EnergyRate(d, UnitsOf(d)) == Abs(Micro(d, "power_now"))
                                     && FullCapacity(d, UnitsOf(d)) == Micro(d, "energy_full")
  {
  }

  /** energy_full of 5000 µWh is below 0.01 Wh, so a charge_full of 2 500 000 µAh gives 2.5 Ah in Charge units. */
  lemma ChargeUnitsExample(d: Device)
    requires "energy_full" in d.attrs && d.attrs["energy_full"] == Decimal(5000)
    requires "charge_full" in d.attrs && d.attrs["charge_full"] == Decimal(2500000)
    ensures UnitsOf(d) == Charge
    ensures FullCapacity(d, UnitsOf(d)) == Num(2.5)
  {
    TinyEnergyMeansCharge(d);
    ChargeFullInAmpHours(d);
  }

  /** 2500000 µAh is 2.5 Ah. */
  lemma ChargeFullInAmpHours(d: Device)
    requires "charge_full" in d.attrs && d.attrs["charge_full"] == Decimal(2500000)
    ensures Micro(d, "charge_full") == Num(2.5)
  {
    MicroOfDecimal(d, "charge_full", 2500000);
  }

  /** 5000 µWh is 0.005 Wh, below the 0.01 Wh cut-off. */
  lemma TinyEnergyMeansCharge(d: Device)
    requires "energy_full" in d.attrs && d.attrs["energy_full"] == Decimal(5000)
    ensures UnitsOf(d) == Charge
  {
    MicroOfDecimal(d, "energy_full", 5000);
  }

  /** An attribute holding a printed whole number reads as that number of millionths. */
  lemma MicroOfDecimal(d: Device, name: string, n: nat)
    requires name in d.attrs && d.attrs[name] == Decimal(n)
    ensures Micro(d, name) == Num(n as real / 1000000.0)
  {
    DecimalStrtod(n);
  }

  /**
   * A second parse of the same charge_types text leaves the supported set
   * and the active type as the first left them, so two refreshes over the
   * same attributes report the same battery record.
   */
  lemma RefreshIsStable(d: Device, supported: Flags, active: Flags)
    ensures var s1 := supported | SupportedIn(ChargeTypeTokens(d));
            s1 | SupportedIn(ChargeTypeTokens(d)) == s1
            && StaticInfo(d, s1 | SupportedIn(ChargeTypeTokens(d))) == StaticInfo(d, s1)
    ensures var a1 := ActiveIn(ChargeTypeTokens(d), active);
            ActiveIn(ChargeTypeTokens(d), a1) == a1
  {
    ActiveInIdempotent(ChargeTypeTokens(d), active);
  }

  /** Parsing the same tokens twice picks the same active type as parsing them once. */
  lemma {:induction false} ActiveInIdempotent(tokens: seq<string>, current: Flags)
    ensures ActiveIn(tokens, ActiveIn(tokens, current)) == ActiveIn(tokens, current)
    decreases |tokens|
  {
    if tokens != [] && !MarksActive(tokens[|tokens| - 1]) {
      var prefix := tokens[..|tokens| - 1];
      ActiveInIdempotent(prefix, current);
      ActiveInPrefix(tokens, ActiveIn(prefix, current));
    }
  }

  /** What one more token adds to the supported set and the active type. */
  lemma TokenStep(tokens: seq<string>, i: nat, start: Flags, current: Flags)
    requires i < |tokens|
    ensures start | SupportedIn(tokens[..i + 1]) == (start | SupportedIn(tokens[..i])) | StrToEnum(Some(TokenName(tokens[i])))
    ensures ActiveIn(tokens[..i + 1], current)
            == if MarksActive(tokens[i]) then StrToEnum(Some(Washed(tokens[i]))) else ActiveIn(tokens[..i], current)
  {
    assert tokens[..i + 1][..i] == tokens[..i];
  }

  /** When the last token is not marked, it does not affect the active type. */
  lemma ActiveInPrefix(tokens: seq<string>, current: Flags)
    requires tokens != [] && !MarksActive(tokens[|tokens| - 1])
    ensures ActiveIn(tokens, current) == ActiveIn(tokens[..|tokens| - 1], current)
  {
  }

  // ---------------------------------------------------------------------
  // Writing charge types and thresholds

  /**
   * The writes of up_device_supply_battery_set_battery_charge_types: none
   * unless the device has charge_types and the type's name maps to a
   * supported flag; then one write of that name to charge_types.
   */
  function ChargeTypeWrites(d: Device, supported: Flags, chargeType: Flags, accepts: (string, string) -> bool): (w: seq<Write>)
    ensures |w| <= 1
    ensures w != [] <==> Has(d, "charge_types") && IsChargeTypeExist(supported, EnumToStr(chargeType))
    ensures w != [] ==> w[0] == Attempt(d, "charge_types", EnumToStr(chargeType), accepts)
    ensures forall k :: 0 <= k < |w| ==>
              w[k].attr == "charge_types" && StrToEnum(Some(w[k].content)) & supported != 0
  {
    if !Has(d, "charge_types") then []
    else if !IsChargeTypeExist(supported, EnumToStr(chargeType)) then []
    else [Attempt(d, "charge_types", EnumToStr(chargeType), accepts)]
  }

  /** How many of the writes failed. */
  function Failures(w: seq<Write>): (n: nat)
    ensures n <= |w|
    ensures n == 0 <==> forall k :: 0 <= k < |w| ==> w[k].succeeded
  {
    if w == [] then 0 else (if w[|w| - 1].succeeded then 0 else 1) + Failures(w[..|w| - 1])
  }

  /** One more write adds one failure exactly when it fails. */
  lemma FailuresAppend(w: seq<Write>, x: Write)
    ensures Failures(w + [x]) == Failures(w) + if x.succeeded then 0 else 1
  {
    assert (w + [x])[..|w|] == w;
  }

  /** Two failures among at most two writes means there were two writes and both failed. */
  lemma TwoFailures(w: seq<Write>)
    requires |w| <= 2
    ensures Failures(w) == 2 <==> |w| == 2 && !w[0].succeeded && !w[1].succeeded
  {
    if |w| == 2 {
      assert w[..1][..0] == [];
    }
  }

  /** CLAMP (x, 0, 100) of a guint. */
  function ClampPercent(x: uint32): (r: nat)
    ensures r <= 100 && (x <= 100 ==> r == x)
  {
    if x > 100 then 100 else x
  }

  /** The numeric threshold writes: start then end, each skipped when it is G_MAXUINT, clamped and printed with "%d". */
  function NumericWrites(d: Device, start: uint32, end: uint32, accepts: (string, string) -> bool): (w: seq<Write>)
    ensures |w| == (if start != MAXUINT then 1 else 0) + (if end != MAXUINT then 1 else 0)
    ensures start != MAXUINT ==> w[0] == Attempt(d, "charge_control_start_threshold", Decimal(ClampPercent(start)), accepts)
    ensures end != MAXUINT ==> w[|w| - 1] == Attempt(d, "charge_control_end_threshold", Decimal(ClampPercent(end)), accepts)
  {
    (if start != MAXUINT then [Attempt(d, "charge_control_start_threshold", Decimal(ClampPercent(start)), accepts)] else [])
    + (if end != MAXUINT then [Attempt(d, "charge_control_end_threshold", Decimal(ClampPercent(end)), accepts)] else [])
  }

  /** Every threshold written is one the CHARGE_LIMIT field parser reads back as the clamped value. */
  lemma WrittenThresholdsReadBack(d: Device, start: uint32, end: uint32, accepts: (string, string) -> bool)
    ensures start != MAXUINT ==>
              ParseField(NumericWrites(d, start, end, accepts)[0].content) == Some(Num(ClampPercent(start) as real))
    ensures end != MAXUINT ==>
              var w := NumericWrites(d, start, end, accepts);
              ParseField(w[|w| - 1].content) == Some(Num(ClampPercent(end) as real))
  {
    PrintedThresholdParses(ClampPercent(start));
    PrintedThresholdParses(ClampPercent(end));
  }

  /**
   * An unrecognised charge_types token sets the UNKNOWN bit, so on a device
   * with no Fast, Standard or Adaptive type a request to stop limiting
   * writes "Unknown" to charge_types.
   */
  lemma UnknownWrittenForUnrecognisedToken(d: Device, supported: Flags, accepts: (string, string) -> bool)
    requires Has(d, "charge_types")
    requires supported & UNKNOWN != 0 && supported & (FAST | STANDARD | ADAPTIVE) == 0
    ensures ChargeTypeWrites(d, supported, BestForCharging(supported), accepts)
            == [Attempt(d, "charge_types", "Unknown", accepts)]
  {
    assert BestForCharging(supported) == CHARGE_TYPE_LAST;
    assert EnumToStr(CHARGE_TYPE_LAST) == "Unknown";
  }

  // ---------------------------------------------------------------------
  // Coldplug

  /**
   * up_device_supply_coldplug: the device needs a sysfs path, must not have
   * scope "device", and must have type "battery" (both in any case).
   */
  function Coldplug(d: Device): (ok: bool)
    ensures ok ==> d.path.Some? && Attr(d, "type").Some?
    ensures ok <==> d.path.Some?
                    && !(Attr(d, "scope").Some? && EqualsIgnoreCase(Attr(d, "scope").value, "device"))
                    && Attr(d, "type").Some? && EqualsIgnoreCase(Attr(d, "type").value, "battery")
  {
    if d.path.None? then false
    else
      var scope := Attr(d, "scope");
      if scope.Some? && EqualsIgnoreCase(scope.value, "device") then false
      else
        var deviceType := Attr(d, "type");
        deviceType.Some? && EqualsIgnoreCase(deviceType.value, "battery")
  }

  /** The coldplug warning: a scope other than "device" or "system" is accepted as system scope, with a warning. */
  predicate ColdplugWarnsScope(d: Device) {
    d.path.Some? && Attr(d, "scope").Some?
    && !EqualsIgnoreCase(Attr(d, "scope").value, "device")
    && !EqualsIgnoreCase(Attr(d, "scope").value, "system")
  }

  /** A "Battery" with scope "System" is taken; the same with scope "Device" is not. */
  lemma ColdplugExamples(path: string, attrs: map<string, string>)
    requires attrs == map["type" := "Battery", "scope" := "System"]
    ensures Coldplug(Device(Some(path), attrs, map[]))
    ensures !ColdplugWarnsScope(Device(Some(path), attrs, map[]))
    ensures !Coldplug(Device(Some(path), attrs["scope" := "Device"], map[]))
    ensures !Coldplug(Device(None, attrs, map[]))
  {
    var d := Device(Some(path), attrs, map[]);
    assert Attr(d, "type") == Some("Battery");
    assert Attr(d, "scope") == Some("System");
    assert EqualsIgnoreCase("Battery", "battery");
    assert !EqualsIgnoreCase("System", "device") by {
      assert AsciiLower("System"[0]) != AsciiLower("device"[0]);
    }
    assert EqualsIgnoreCase("System", "system");
    var d2 := Device(Some(path), attrs["scope" := "Device"], map[]);
    assert Attr(d2, "scope") == Some("Device");
    assert EqualsIgnoreCase("Device", "device");
  }

  // ---------------------------------------------------------------------
  // The device record

  /**
   * UpDeviceSupplyBattery: the fields the driver keeps from one call to the
   * next (its other fields are never used).
   */
  class Battery {
    /** Every charge type any refresh has seen; bits are only ever added. */
    var supportedChargeTypes: Flags
    /** The type last marked active in charge_types. */
    var chargeType: Flags
    /** Thresholds are driven through charge_types; once set it stays set. */
    var chargeThresholdByChargeType: bool
    /** The 10 V guess has been warned about. */
    var shownInvalidVoltageWarning: bool
    /** The "ignore-system-percentage" property. */
    var ignoreSystemPercentage: bool

    /** A new record: all fields zero except the percentage policy. */
    constructor (ignoreSystemPercentage: bool)
      ensures supportedChargeTypes == 0 && chargeType == 0
      ensures !chargeThresholdByChargeType && !shownInvalidVoltageWarning
      ensures this.ignoreSystemPercentage == ignoreSystemPercentage
    {
      supportedChargeTypes := 0;
      chargeType := 0;
      chargeThresholdByChargeType := false;
      shownInvalidVoltageWarning := false;
      this.ignoreSystemPercentage := ignoreSystemPercentage;
    }

    /**
     * up_device_supply_battery_get_design_voltage: the voltage, and whether
     * this call emitted the one-time warning about guessing 10 V.
     */
    method GetDesignVoltage(d: Device) returns (voltage: real, warned: bool)
      modifies this`shownInvalidVoltageWarning
      ensures voltage == DesignVoltage(d)
      ensures shownInvalidVoltageWarning == (old(shownInvalidVoltageWarning) || GuessesVoltage(d))
      ensures warned <==> !old(shownInvalidVoltageWarning) && GuessesVoltage(d)
    {
      var candidate := Micro(d, "voltage_max_design");
      if Greater(candidate, 1.0) {
        return candidate.v, false;
      }
      candidate := Micro(d, "voltage_min_design");
      if Greater(candidate, 1.0) {
        return candidate.v, false;
      }
      candidate := Micro(d, "voltage_now");
      if Greater(candidate, 1.0) {
        return candidate.v, false;
      }
      var deviceType := Attr(d, "type");
      if deviceType.Some? && EqualsIgnoreCase(deviceType.value, "USB") {
        return 5.0, false;
      }
      warned := !shownInvalidVoltageWarning;
      if warned {
        shownInvalidVoltageWarning := true;
      }
      voltage := 10.0;
    }

    /**
     * One pass of the charge_types loop: a bracketed token is washed and
     * becomes the active type; the token's flag joins the supported set.
     */
    method TakeChargeType(token: string)
      modifies this`supportedChargeTypes, this`chargeType
      ensures supportedChargeTypes == old(supportedChargeTypes) | StrToEnum(Some(TokenName(token)))
      ensures chargeType == if MarksActive(token) then StrToEnum(Some(Washed(token))) else old(chargeType)
    {
      var tmpType;
      if MarksActive(token) {
        tmpType := RemoveBrackets(token);
        chargeType := StrToEnum(Some(tmpType));
      } else {
        tmpType := token;
      }
      supportedChargeTypes := supportedChargeTypes | StrToEnum(Some(tmpType));
    }

    /**
     * up_device_battery_get_supported_charge_types: OR every token's flag
     * into the supported set and take the active type from a bracketed
     * token; returns the CHARGE_TYPES setting bit when charge_types exists.
     */
    method GetSupportedChargeTypes(d: Device) returns (settings: bv32)
      modifies this`supportedChargeTypes, this`chargeType
      ensures settings == if Has(d, "charge_types") then CHARGE_TYPES_SETTING else 0
      ensures supportedChargeTypes == old(supportedChargeTypes) | SupportedIn(ChargeTypeTokens(d))
      ensures chargeType == ActiveIn(ChargeTypeTokens(d), old(chargeType))
    {
      var text := Attr(d, "charge_types");
      if text.None? {
        return 0;
      }
      settings := CHARGE_TYPES_SETTING;
      var types := Split(text.value, ' ');
      for i := 0 to |types|
        invariant supportedChargeTypes == old(supportedChargeTypes) | SupportedIn(types[..i])
        invariant chargeType == ActiveIn(types[..i], old(chargeType))
      {
        TokenStep(types, i, old(supportedChargeTypes), old(chargeType));
        TakeChargeType(types[i]);
      }
      assert types[..|types|] == types;
    }

    /**
     * The second half of a refresh: the readings of a present battery in
     * the unit the first half chose, `classified` being the state the
     * generic status classifier reports.
     */
    method ReadValues(d: Device, units: Units, classified: DeviceState) returns (values: BatteryValues)
      requires units == Energy || units == Charge
      ensures values == DynamicValues(d, units, ignoreSystemPercentage, classified)
    {
      var voltage := Micro(d, "voltage_now");
      if Less(voltage, 0.01) {
        voltage := Micro(d, "voltage_avg");
      }
      var capacityLevel := AttrStripped(d, "capacity_level");
      var energyRate, energyCur;
      if units == Charge {
        energyRate := Abs(Micro(d, "current_now"));
        energyCur := Abs(Micro(d, "charge_now"));
      } else {
        energyRate := Abs(Micro(d, "power_now"));
        energyCur := Abs(Micro(d, "energy_now"));
        if Less(energyCur, 0.01) {
          energyCur := Micro(d, "energy_avg");
        }
        if Less(energyRate, 0.0) {
          energyRate := Abs(Micro(d, "current_now"));
        }
      }
      var percentage := 0.0;
      if !ignoreSystemPercentage {
        var capacity := AttrDouble(d, "capacity");
        percentage := if capacity.NaN? then 0.0 else capacity.v;
        percentage := if percentage > 100.0 then 100.0 else if percentage < 0.0 then 0.0 else percentage;
      }
      var state := classified;
      if state != FullyCharged && Less(AttrDouble(d, "current_now"), 0.0) {
        state := Discharging;
      }
      var temperature := Div(AttrDouble(d, "temp"), 10.0);
      values := BatteryValues(units, voltage, capacityLevel, energyRate, energyCur, percentage, state, temperature);
    }

    /**
     * The charge-control part of a refresh: the CHARGE_LIMIT thresholds,
     * the charge_types re-read, and whether thresholds go through
     * charge_types (which, once seen, stays set).
     */
    method ReadChargeControl(d: Device) returns (supported: bool, limits: ControlLimits)
      modifies this`supportedChargeTypes, this`chargeType, this`chargeThresholdByChargeType
      ensures supportedChargeTypes == old(supportedChargeTypes) | SupportedIn(ChargeTypeTokens(d))
      ensures chargeType == ActiveIn(ChargeTypeTokens(d), old(chargeType))
      ensures chargeThresholdByChargeType == (old(chargeThresholdByChargeType) || ByChargeType(d, supportedChargeTypes))
      ensures supported == (GetChargeControlLimits(d).Some? || ByChargeType(d, supportedChargeTypes))
      ensures limits == ReportedLimits(d)
    {
      var startThreshold, endThreshold := Num(0.0), Num(0.0);
      var thresholdSettings: bv32 := 0;
      supported := false;
      var parsed := GetChargeControlLimits(d);
      if parsed.Some? {
        startThreshold, endThreshold := parsed.value.limits.start, parsed.value.limits.end;
        thresholdSettings := parsed.value.settings;
        supported := true;
      }
      var typeSettings := GetSupportedChargeTypes(d);
      thresholdSettings := thresholdSettings | typeSettings;
      if IsThresholdByChargeType(Has(d, "charge_control_start_threshold"),
                                 Has(d, "charge_control_end_threshold"), supportedChargeTypes) {
        supported := true;
        chargeThresholdByChargeType := true;
      }
      limits := ControlLimits(Limits(startThreshold, endThreshold), thresholdSettings);
    }

    /**
     * The first half of a refresh of a present battery, after the design
     * voltage: the battery record, with the charge types re-read along the
     * way.
     */
    method ReadInfo(d: Device, voltageDesign: real) returns (info: BatteryInfo)
      requires voltageDesign == DesignVoltage(d)
      modifies this`supportedChargeTypes, this`chargeType, this`chargeThresholdByChargeType
      ensures supportedChargeTypes == old(supportedChargeTypes) | SupportedIn(ChargeTypeTokens(d))
      ensures chargeType == ActiveIn(ChargeTypeTokens(d), old(chargeType))
      ensures chargeThresholdByChargeType == (old(chargeThresholdByChargeType) || ByChargeType(d, supportedChargeTypes))
      ensures info == StaticInfo(d, supportedChargeTypes)
    {
      var vendor := AttrStripped(d, "manufacturer");
      var model := AttrStripped(d, "model_name");
      var serial := AttrStripped(d, "serial_number");
      var chargeCycles := AttrInt(d, "cycle_count");

      var units := Energy;
      var energyFull := Micro(d, "energy_full");
      var energyDesign := Micro(d, "energy_full_design");
      if Less(energyFull, 0.01) {
        units := Charge;
        energyFull := Micro(d, "charge_full");
        energyDesign := Micro(d, "charge_full_design");
      }
      var technology := AttrStripped(d, "technology");
      var voltageMaxDesign := Micro(d, "voltage_max_design");
      var voltageMinDesign := Micro(d, "voltage_min_design");

      var chargeControlSupported, limits := ReadChargeControl(d);
      info := BatteryInfo(true, vendor, model, serial, voltageDesign, chargeCycles, units, energyFull, energyDesign,
                          technology, voltageMaxDesign, voltageMinDesign, chargeControlSupported, false,
                          limits.limits.start, limits.limits.end, limits.settings);
    }

    /**
     * up_device_supply_battery_refresh: the battery record and, for a
     * present battery, the readings handed to the parent class. A battery
     * whose "present" attribute reads false gets a record with present
     * unset and nothing else.
     */
    method Refresh(d: Device, classified: DeviceState) returns (ok: bool, info: BatteryInfo, values: Option<BatteryValues>)
      modifies this`supportedChargeTypes, this`chargeType, this`chargeThresholdByChargeType,
               this`shownInvalidVoltageWarning
      ensures ok
      ensures !IsPresent(d) ==> info == ZERO_INFO && values == None
                                && supportedChargeTypes == old(supportedChargeTypes)
                                && chargeType == old(chargeType)
                                && chargeThresholdByChargeType == old(chargeThresholdByChargeType)
                                && shownInvalidVoltageWarning == old(shownInvalidVoltageWarning)
      ensures IsPresent(d) ==> supportedChargeTypes == old(supportedChargeTypes) | SupportedIn(ChargeTypeTokens(d))
                               && chargeType == ActiveIn(ChargeTypeTokens(d), old(chargeType))
                               && shownInvalidVoltageWarning == (old(shownInvalidVoltageWarning) || GuessesVoltage(d))
                               && chargeThresholdByChargeType == (old(chargeThresholdByChargeType)
                                                                 || ByChargeType(d, supportedChargeTypes))
                               && info == StaticInfo(d, supportedChargeTypes)
                               && values == Some(DynamicValues(d, info.units, ignoreSystemPercentage, classified))
    {
      ok := true;
      info := ZERO_INFO;
      values := None;
      if !IsPresent(d) {
        return;
      }
      var voltageDesign, _ := GetDesignVoltage(d);
      info := ReadInfo(d, voltageDesign);
      var readings := ReadValues(d, info.units, classified);
      values := Some(readings);
    }

    /**
     * up_device_supply_battery_set_battery_charge_types: write the type's
     * name to charge_types when the device has that attribute and supports
     * the type. Always reports success, even when the write fails.
     */
    method SetBatteryChargeTypes(d: Device, chargeType: Flags, accepts: (string, string) -> bool)
      returns (ok: bool, writes: seq<Write>)
      ensures ok
      ensures writes == ChargeTypeWrites(d, supportedChargeTypes, chargeType, accepts)
    {
      ok := true;
      var name := EnumToStr(chargeType);
      if !Has(d, "charge_types") {
        return ok, [];
      }
      if !IsChargeTypeExist(supportedChargeTypes, name) {
        return ok, [];
      }
      writes := [Attempt(d, "charge_types", name, accepts)];
    }

    /**
     * The numeric half of up_device_supply_battery_set_battery_charge_thresholds:
     * each threshold that is not G_MAXUINT is clamped to [0, 100] and written
     * as a decimal, counting the writes that fail.
     */
    method WriteThresholds(d: Device, start: uint32, end: uint32, accepts: (string, string) -> bool)
      returns (errCount: nat, writes: seq<Write>)
      ensures writes == NumericWrites(d, start, end, accepts)
      ensures errCount == Failures(writes)
    {
      errCount := 0;
      writes := [];
      if start != MAXUINT {
        var w := Attempt(d, "charge_control_start_threshold", Decimal(ClampPercent(start)), accepts);
        writes := writes + [w];
        if !w.succeeded {
          errCount := errCount + 1;
        }
      }
      if end != MAXUINT {
        var w := Attempt(d, "charge_control_end_threshold", Decimal(ClampPercent(end)), accepts);
        FailuresAppend(writes, w);
        writes := writes + [w];
        if !w.succeeded {
          errCount := errCount + 1;
        }
      }
    }

    /**
     * up_device_supply_battery_set_battery_charge_thresholds. Through
     * charge_types: (0, 100) selects the best charging type, anything else
     * Long_Life, and the call succeeds. Through the numeric attributes: each
     * threshold that is not G_MAXUINT is written, the call fails only when
     * two writes were tried and both failed, and after success charge_types
     * is set to the best charging type for (0, 100) and to Custom otherwise.
     */
    method SetChargeThresholds(d: Device, start: uint32, end: uint32, accepts: (string, string) -> bool)
      returns (ok: bool, writes: seq<Write>)
      ensures chargeThresholdByChargeType ==>
                ok && writes == ChargeTypeWrites(d, supportedChargeTypes,
                                                 if start == 0 && end == 100 then BestForCharging(supportedChargeTypes)
                                                 else LONG_LIFE, accepts)
      ensures !chargeThresholdByChargeType ==>
                var numeric := NumericWrites(d, start, end, accepts);
                (ok <==> !(|numeric| == 2 && !numeric[0].succeeded && !numeric[1].succeeded))
                && writes == numeric + if !ok then [] else
                     ChargeTypeWrites(d, supportedChargeTypes,
                                      if start == 0 && end == 100 then BestForCharging(supportedChargeTypes)
                                      else CUSTOM, accepts)
    {
      if chargeThresholdByChargeType {
        if start == 0 && end == 100 {
          var best := BestForCharging(supportedChargeTypes);
          ok, writes := SetBatteryChargeTypes(d, best, accepts);
        } else {
          ok, writes := SetBatteryChargeTypes(d, LONG_LIFE, accepts);
        }
        return true, writes;
      }

      var errCount;
      errCount, writes := WriteThresholds(d, start, end, accepts);
      TwoFailures(writes);
      if errCount == 2 {
        return false, writes;
      }

      var typeWrites;
      if start == 0 && end == 100 {
        var best := BestForCharging(supportedChargeTypes);
        var _, w := SetBatteryChargeTypes(d, best, accepts);
        typeWrites := w;
      } else {
        var _, w := SetBatteryChargeTypes(d, CUSTOM, accepts);
        typeWrites := w;
      }
      ok := true;
      writes := writes + typeWrites;
    }
  }
}
