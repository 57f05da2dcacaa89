/**
 * The CHARGE_LIMIT udev property, "start,end", which gives the thresholds a
 * device's numeric charge_control_*_threshold attributes are reported with.
 * Either field may be "_" for a threshold that is not set.
 */
module ChargeLimit {
  import opened Wrappers
  import opened Strings
  import opened Numbers
  import opened Sysfs

  /** A guint. */
  type uint32 = x: nat | x < 0x1_0000_0000

  /** G_MAXUINT: a threshold argument with this value is not written. */
  const MAXUINT: uint32 := 0xFFFF_FFFF

  /** The value a "_" field stands for: G_MAXUINT stored in a gdouble. */
  const UNSET: real := MAXUINT as real

  /** Bits of UpDeviceSupplyBatteryChargeThresholdSettings. */
  const START_THRESHOLD_SETTING: bv32 := 1 << 0
  const END_THRESHOLD_SETTING: bv32 := 1 << 1
  const CHARGE_TYPES_SETTING: bv32 := 1 << 2

  /** A threshold as the parse can leave it: unset, a percentage, or NaN (which no range check rejects). */
  predicate IsThreshold(x: Double) {
    x == Num(UNSET) || x.NaN? || 0.0 <= x.v <= 100.0
  }

  /**
   * up_device_supply_battery_convert_to_double: a number must start the
   * text (what follows it is ignored) and must not lie below 0 or above 100.
   */
  function ConvertToDouble(field: string): (r: Option<Double>)
    ensures r.Some? ==> r.value.NaN? || 0.0 <= r.value.v <= 100.0
    ensures r.Some? <==> Strtod(field).Some? && !Less(Strtod(field).value.value, 0.0)
                         && !Greater(Strtod(field).value.value, 100.0)
    ensures r.Some? ==> r.value == Strtod(field).value.value
  {
    match Strtod(field)
    case None => None
    case Some(c) => if Less(c.value, 0.0) || Greater(c.value, 100.0) then None else Some(c.value)
  }

  /** One field of CHARGE_LIMIT: exactly "_" is unset, anything else must convert. */
  function ParseField(field: string): (r: Option<Double>)
    ensures r.Some? ==> IsThreshold(r.value)
    ensures field == "_" ==> r == Some(Num(UNSET))
    ensures field != "_" ==> r == ConvertToDouble(field)
  {
    if field == "_" then Some(Num(UNSET)) else ConvertToDouble(field)
  }

  datatype Limits = Limits(start: Double, end: Double)

  /**
   * The parse in up_device_supply_battery_get_charge_control_limits: no
   * property, a field count other than two, or a field that does not
   * convert all make it fail.
   */
  function ParseChargeLimit(value: Option<string>): (r: Option<Limits>)
    ensures r.Some? ==> value.Some? && Occurrences(value.value, ',') == 1
    ensures r.Some? ==> IsThreshold(r.value.start) && IsThreshold(r.value.end)
    ensures r.Some? ==> var fields := Split(value.value, ',');
                        |fields| == 2 && ParseField(fields[0]) == Some(r.value.start) && ParseField(fields[1]) == Some(r.value.end)
  {
    if value.None? then None
    else
      var fields := Split(value.value, ',');
      SplitCount(value.value, ',');
      if |fields| != 2 then None
      else match (ParseField(fields[0]), ParseField(fields[1]))
        case (Some(s), Some(e)) => Some(Limits(s, e))
        case _ => None
  }

  /** What a successful read gives: the two thresholds and the setting bits of the numeric attributes present. */
  datatype ControlLimits = ControlLimits(limits: Limits, settings: bv32)

  /**
   * up_device_supply_battery_get_charge_control_limits: on success the
   * thresholds, plus the START and END setting bits for the threshold
   * attributes the device has; on failure nothing is written.
   */
  function GetChargeControlLimits(d: Device): (r: Option<ControlLimits>)
    ensures r.Some? <==> ParseChargeLimit(Property(d, "CHARGE_LIMIT")).Some?
    ensures r.Some? ==> r.value.limits == ParseChargeLimit(Property(d, "CHARGE_LIMIT")).value
    ensures r.Some? ==> (r.value.settings & START_THRESHOLD_SETTING != 0 <==> Has(d, "charge_control_start_threshold"))
    ensures r.Some? ==> (r.value.settings & END_THRESHOLD_SETTING != 0 <==> Has(d, "charge_control_end_threshold"))
    ensures r.Some? ==> r.value.settings & CHARGE_TYPES_SETTING == 0
  {
    match ParseChargeLimit(Property(d, "CHARGE_LIMIT"))
    case None => None
    case Some(limits) =>
      var start: bv32 := if Has(d, "charge_control_start_threshold") then START_THRESHOLD_SETTING else 0;
      var end: bv32 := if Has(d, "charge_control_end_threshold") then END_THRESHOLD_SETTING else 0;
      Some(ControlLimits(limits, start | end))
  }

  /** Two comma-free fields joined by one comma are parsed field by field. */
  lemma ParseTwoFields(a: string, b: string)
    requires ',' !in a && ',' !in b
    ensures ParseChargeLimit(Some(a + [','] + b)) ==
            if ParseField(a).Some? && ParseField(b).Some? then Some(Limits(ParseField(a).value, ParseField(b).value))
            else None
  {
    FieldsAfterSeparator(a, b, ',');
    FieldsWithoutSeparator(b, ',');
  }

  /** 80 printed is "80", which parses as 80. */
  lemma EightyParses(s: string)
    requires s == "80"
    ensures ParseField(s) == Some(Num(80.0))
  {
    assert Decimal(80) == s;
    PrintedThresholdParses(80);
  }

  /** Text after the number is ignored: "80abc" reads as 80. */
  lemma TrailingTextIgnored(s: string)
    requires s == Decimal(80) + "abc"
    ensures ParseField(s) == Some(Num(80.0))
  {
    DecimalThenTextStrtod(80, "abc");
  }

  /** "_,80": the start threshold is unset, the end threshold is 80. */
  lemma UnsetStartExample(value: string)
    requires value == "_,80"
    ensures ParseChargeLimit(Some(value)) == Some(Limits(Num(UNSET), Num(80.0)))
  {
    assert value == "_" + [','] + "80";
    ParseTwoFields("_", "80");
    EightyParses("80");
  }

  /** "150,80": the start field is out of range, so the whole property is rejected. */
  lemma OutOfRangeExample(value: string)
    requires value == "150,80"
    ensures ParseChargeLimit(Some(value)) == None
  {
    assert value == "150" + [','] + "80";
    ParseTwoFields("150", "80");
    OneFiftyRejected("150");
  }

  /** 150 is read as a number, but above 100. */
  lemma OneFiftyRejected(s: string)
    requires s == "150"
    ensures ParseField(s) == None
  {
    assert Decimal(150) == s;
    DecimalStrtod(150);
  }

  /** "nan" converts to NaN, which neither bound rejects. */
  lemma NanParses(s: string)
    requires s == "nan"
    ensures ParseField(s) == Some(NaN)
  {
    assert SkipSpaces(s, 0) == 0;
    assert s[0..3] == "nan";
    assert NanAt(s, 0);
  }

  /** "nan,80": NaN becomes the start threshold. */
  lemma NanStartExample(value: string)
    requires value == "nan,80"
    ensures ParseChargeLimit(Some(value)) == Some(Limits(NaN, Num(80.0)))
  {
    assert value == "nan" + [','] + "80";
    ParseTwoFields("nan", "80");
    EightyParses("80");
    NanParses("nan");
  }

  /** A printed threshold 0..100 is accepted by the CHARGE_LIMIT field parser as that same value. */
  lemma PrintedThresholdParses(n: nat)
    requires n <= 100
    ensures ParseField(Decimal(n)) == Some(Num(n as real))
  {
    DecimalStrtod(n);
    assert Decimal(n) != "_" by {
      assert IsDigit(Decimal(n)[0]);
    }
  }
}
