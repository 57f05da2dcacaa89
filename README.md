# UPower battery driver and configuration layering, in Dafny

This project models two parts of UPower, the system daemon that reports
power sources.

The first is the Linux power-supply battery driver
(`src/linux/up-device-supply-battery.c`). It reads a battery's sysfs
attributes and turns them into a battery record (`UpBatteryInfo`) and
readings (`UpBatteryValues`). It also keeps four fields per device between
calls:

- the supported charge types, a flag set;
- the active charge type;
- whether charge thresholds are set through `charge_types`;
- the one-shot invalid-voltage warning latch.

It writes charge thresholds back to sysfs, either as numeric
`charge_control_*_threshold` files or by selecting a charge type.

The second is the configuration loader (`src/up-config.c`). It reads
`UPower.conf`, then lists `UPower.conf.d`. It keeps the names that match
`^[0-9][0-9]-[A-Za-z0-9_-]*\.conf$` (where `$` also matches before one
final newline sequence), sorts them with `strcmp` and applies
them in order. A drop-in file may only replace keys that the base
`[UPower]` group already has. The getters clamp negative numbers to zero.

Modules, one per concern:

- `Wrappers`: `Option`.
- `Strings`: ASCII helpers, `g_strsplit`, `g_strstrip`, and the `strcmp`
  order as a total order on strings.
- `Numbers`: a `Double` that is a real or NaN, the parts of
  `strtod`/`strtol` the driver relies on, and decimal printing.
- `Sysfs`: a device as a map from attribute name to text, its udev
  properties, and file writes whose outcome is an oracle.
- `ChargeTypes`: the charge-type flag catalogue, its name codec, the
  `charge_types` vocabulary parse and `remove_brackets`.
- `ChargeLimit`: the `CHARGE_LIMIT` udev property parse.
- `SupplyBattery`: the `Battery` class with its persistent fields, the
  design-voltage chain, refresh, the threshold writes, and coldplug.
- `Config`: the conf.d filter, sort and merge, the `UpConfig` class whose
  key file the drop-ins update in place, and the getters.

## Model

| member | source | states |
|---|---|---|
| ChargeTypes.StrToEnum | src/linux/up-device-supply-battery.c:237-264 | The result is a single flag or the invalid value `CHARGE_TYPE_LAST`, and it is not `CHARGE_TYPE_LAST` exactly when the name is one of the nine known names (NULL included among the unknown). |
| ChargeTypes.EnumToStr | src/linux/up-device-supply-battery.c:266-298 | Always one of the nine names; any value that is not a single flag, `CHARGE_TYPE_LAST` included, yields "Unknown". |
| ChargeTypes.FlagRoundTrip | src/linux/up-device-supply-battery.c:237-298 | Each single flag survives printing then parsing. |
| ChargeTypes.NameRoundTrip | src/linux/up-device-supply-battery.c:237-298 | Each known name survives parsing then printing. |
| ChargeTypes.InvalidTypeOverlapsUnknown | src/linux/up-device-supply-battery.c:48-60 | `CHARGE_TYPE_LAST` (257) is the Unknown bit plus the Bypass bit, is not a single flag, and reads back as Unknown after printing. |
| ChargeTypes.BestForCharging | src/linux/up-device-supply-battery.c:300-315 | Picks Fast, else Standard, else Adaptive, among the supported types; the invalid value exactly when none of the three is supported. |
| ChargeTypes.IsThresholdByChargeType | src/linux/up-device-supply-battery.c:358-381 | True exactly when neither threshold attribute exists, Long_Life is supported, and at least one of Standard, Adaptive and Fast is supported. |
| ChargeTypes.IsChargeTypeExist | src/linux/up-device-supply-battery.c:630-641 | A known name is found exactly when its type is in the supported set; an unknown name (which parses to 257) is found whenever the Unknown or the Bypass bit is supported. |
| ChargeTypes.Washed | src/linux/up-device-supply-battery.c:219-235 | The washed token has no brackets and is no longer than the token. |
| ChargeTypes.RemoveBrackets | src/linux/up-device-supply-battery.c:219-235 | The character loop computes `Washed`: it skips every `[` and stops at the first `]`. |
| ChargeTypes.MarksActive | src/linux/up-device-supply-battery.c:337 | A token that marks the active type contains `[`. |
| ChargeTypes.MarkDropped | src/linux/up-device-supply-battery.c:220-235 | `remove_brackets` drops the leading `[` of a marked token: washing it equals washing the rest. |
| ChargeTypes.InnerBracketIgnored | src/linux/up-device-supply-battery.c:337 | A `[` that is not the first character does not mark a token, because the search is limited to one byte. |
| ChargeTypes.WashedMarkedName | src/linux/up-device-supply-battery.c:219-235 | `[Name]` followed by any text washes to `Name`. |
| ChargeTypes.WashedPlain | src/linux/up-device-supply-battery.c:219-235 | A bracket-free name followed by `]` and anything washes to the name. |
| ChargeTypes.TokenSupported | src/linux/up-device-supply-battery.c:317-346 | Every token's flag, marked or not, is contained in the supported set the vocabulary yields. |
| ChargeTypes.UnrecognisedTokenClaimsUnknownAndBypass | src/linux/up-device-supply-battery.c:237-264 | One unrecognised token sets both the Unknown and the Bypass bits of the supported set. |
| ChargeTypes.ActiveKeptWithoutMark | src/linux/up-device-supply-battery.c:317-346 | With no bracket-marked token the active charge type is unchanged. |
| ChargeTypes.ActiveIsLastMarked | src/linux/up-device-supply-battery.c:317-346 | The active type is the flag of the last token whose first character is `[`. |
| ChargeTypes.ExampleTokens | src/linux/up-device-supply-battery.c:335 | "Standard [Fast] Adaptive" splits on single spaces into three tokens. |
| ChargeTypes.ExampleNames | src/linux/up-device-supply-battery.c:219-235 | The three example tokens wash to Fast, Standard and Adaptive. |
| ChargeTypes.ExampleFlags | src/linux/up-device-supply-battery.c:317-346 | The example tokens give exactly {Standard, Fast, Adaptive}. |
| ChargeTypes.ActiveOfThree | src/linux/up-device-supply-battery.c:317-346 | Of three tokens with only the second marked, the second is active. |
| ChargeTypes.VocabularyExample | src/linux/up-device-supply-battery.c:317-346 | "Standard [Fast] Adaptive" yields supported {Standard, Fast, Adaptive} and active Fast. |
| ChargeLimit.ConvertToDouble | src/linux/up-device-supply-battery.c:156-172 | Accepts a text whose numeric prefix is not below 0 and not above 100 (NaN passes both tests); the accepted value is the number `strtod` read, so it lies in [0,100] or is NaN. |
| ChargeLimit.ParseField | src/linux/up-device-supply-battery.c:192-206 | `_` gives the `G_MAXUINT` sentinel; any other field is what `ConvertToDouble` makes of it; any accepted field is a threshold (in range, NaN or the sentinel). |
| ChargeLimit.TrailingTextIgnored | src/linux/up-device-supply-battery.c:165-169 | Text after the number is ignored: "80abc" reads as 80. |
| ChargeLimit.ParseChargeLimit | src/linux/up-device-supply-battery.c:182-209 | Succeeds only for a present value with exactly one comma, and then both thresholds are fields that parse. |
| ChargeLimit.GetChargeControlLimits | src/linux/up-device-supply-battery.c:174-217 | Succeeds exactly when the `CHARGE_LIMIT` parse does and then reports its limits; the start and end setting bits are set exactly for the threshold attributes that exist; the charge-types bit is never set. |
| ChargeLimit.ParseTwoFields | src/linux/up-device-supply-battery.c:186-206 | For two comma-free fields the parse is the pair of the field parses. |
| ChargeLimit.EightyParses | src/linux/up-device-supply-battery.c:165-169 | "80" converts to 80.0. |
| ChargeLimit.UnsetStartExample | src/linux/up-device-supply-battery.c:192-206 | "_,80" gives the sentinel and 80.0. |
| ChargeLimit.OutOfRangeExample | src/linux/up-device-supply-battery.c:166-167 | "150,80" is rejected as a whole. |
| ChargeLimit.OneFiftyRejected | src/linux/up-device-supply-battery.c:166-167 | "150" is out of range. |
| ChargeLimit.NanParses | src/linux/up-device-supply-battery.c:165-169 | "nan" is accepted, because NaN is neither below 0 nor above 100. |
| ChargeLimit.NanStartExample | src/linux/up-device-supply-battery.c:186-209 | "nan,80" is accepted with a NaN start threshold. |
| ChargeLimit.PrintedThresholdParses | src/linux/up-device-supply-battery.c:713-735 | Every decimal from 0 to 100, as the driver writes it, reads back as that number. |
| Sysfs.Attempt | src/linux/up-device-supply-battery.c:713-726 | A write records the attribute and the text, and succeeds exactly when the attribute exists and the kernel accepts the text. |
| SupplyBattery.FirstAboveOneVolt | src/linux/up-device-supply-battery.c:95-114 | The result is the first candidate above 1 V: every earlier candidate is not above 1 V; there is none exactly when no candidate is above 1 V. |
| SupplyBattery.FirstAboveShifts | src/linux/up-device-supply-battery.c:95-114 | A first match in the later candidates is the first match overall when the earlier one is not above 1 V. |
| SupplyBattery.DesignVoltage | src/linux/up-device-supply-battery.c:88-137 | The design voltage is always above 1 V. |
| SupplyBattery.DesignVoltageIsFirstAbove | src/linux/up-device-supply-battery.c:88-137 | It is the first candidate above 1 V, else 5 V for a USB supply (any case), else 10 V; the warning case is exactly the last one. |
| SupplyBattery.FirstAboveOfThree | src/linux/up-device-supply-battery.c:95-114 | The chain tries maximum design, then minimum design, then present voltage. |
| SupplyBattery.UnitsOf | src/linux/up-device-supply-battery.c:425-434 | The units are Energy or Charge, never unknown. |
| SupplyBattery.StaticInfo | src/linux/up-device-supply-battery.c:406-461 | The record of a present battery: present, charge control not enabled, a design voltage above 1 V, Charge units exactly when `energy_full` is below 0.01 Wh and the full capacity read in those units, and the units are Energy or Charge (thresholds and charge-control support: `SupplyBattery.InfoChargeControl`). |
| SupplyBattery.InfoBasics | src/linux/up-device-supply-battery.c:406-471 | A present battery's record says present, has a design voltage above 1 V, known units, and charge control disabled. |
| SupplyBattery.InfoChargeControl | src/linux/up-device-supply-battery.c:441-461 | Charge control is reported supported exactly when `CHARGE_LIMIT` parses or thresholds go through `charge_types`, both reported thresholds are thresholds, and the charge-types setting bit is set exactly when the `charge_types` attribute exists. |
| SupplyBattery.ReportedLimitsInRange | src/linux/up-device-supply-battery.c:441-450 | The reported thresholds are thresholds whether or not `CHARGE_LIMIT` parsed; the charge-types bit follows the attribute. |
| SupplyBattery.Percentage | src/linux/up-device-supply-battery.c:514-519 | Between 0 and 100; 0 when the system percentage is ignored; otherwise the capacity clamped to [0,100], with NaN read as 0. |
| SupplyBattery.CorrectedState | src/linux/up-device-supply-battery.c:525-529 | The state becomes Discharging exactly when it was Discharging already or it is not FullyCharged and `current_now` is negative; otherwise it is unchanged. |
| SupplyBattery.EnergyRate | src/linux/up-device-supply-battery.c:490-503 | The rate is NaN or not negative: the absolute `current_now` in Charge units, the absolute `power_now` in Energy units. |
| SupplyBattery.EnergyCur | src/linux/up-device-supply-battery.c:494-500 | In Energy units, the absolute `energy_now`, or `energy_avg` when that is below 0.01. |
| SupplyBattery.Voltage | src/linux/up-device-supply-battery.c:473-475 | `voltage_now`, or `voltage_avg` when that is below 0.01. |
| SupplyBattery.DynamicValues | src/linux/up-device-supply-battery.c:471-531 | The readings carry the record's units, a percentage in [0,100] and a rate that is NaN or not negative. |
| SupplyBattery.LegacyRateBranchUnreachable | src/linux/up-device-supply-battery.c:496-503 | In Energy units the rate is always the absolute `power_now`: the `current_now` fallback never applies. |
| SupplyBattery.RateFollowsUnits | src/linux/up-device-supply-battery.c:490-503 | The rate source follows the units: `current_now` for Charge, `power_now` for Energy. |
| SupplyBattery.ChargeUnitsExample | src/linux/up-device-supply-battery.c:425-434 | An `energy_full` of 5000 µWh selects Charge units and the full capacity becomes `charge_full` in Ah. |
| SupplyBattery.ChargeFullInAmpHours | src/linux/up-device-supply-battery.c:432 | `charge_full` of 2500000 µAh reads as 2.5 Ah. |
| SupplyBattery.TinyEnergyMeansCharge | src/linux/up-device-supply-battery.c:428-434 | An `energy_full` below 0.01 Wh switches to Charge units. |
| SupplyBattery.MicroOfDecimal | src/linux/up-device-supply-battery.c:426 | A decimal micro-unit attribute reads as its value divided by one million. |
| SupplyBattery.RefreshIsStable | src/linux/up-device-supply-battery.c:449-461 | Refreshing twice on the same attributes leaves the charge-type fields as one refresh does. |
| SupplyBattery.ActiveInIdempotent | src/linux/up-device-supply-battery.c:317-346 | Reparsing the same vocabulary does not move the active charge type again. |
| SupplyBattery.TokenStep | src/linux/up-device-supply-battery.c:335-345 | One loop step ORs the token's flag into the supported set and updates the active type only for a marked token. |
| SupplyBattery.ActiveInPrefix | src/linux/up-device-supply-battery.c:335-345 | An unmarked last token does not change the active type. |
| SupplyBattery.ChargeTypeWrites | src/linux/up-device-supply-battery.c:643-676 | At most one write, made exactly when `charge_types` exists and the type's name is supported, and it writes that name to `charge_types`. |
| SupplyBattery.Failures | src/linux/up-device-supply-battery.c:713-735 | The failure count is at most the number of writes and is zero exactly when every write succeeded. |
| SupplyBattery.FailuresAppend | src/linux/up-device-supply-battery.c:713-735 | Each further write adds one to the count exactly when it fails. |
| SupplyBattery.TwoFailures | src/linux/up-device-supply-battery.c:733-735 | With at most two writes, the count is 2 exactly when both were attempted and both failed. |
| SupplyBattery.ClampPercent | src/linux/up-device-supply-battery.c:713-729 | At most 100, and unchanged for values up to 100. |
| SupplyBattery.NumericWrites | src/linux/up-device-supply-battery.c:713-735 | One write per threshold that is not `G_MAXUINT`, start first, each the decimal of the clamped value to its own attribute. |
| SupplyBattery.WrittenThresholdsReadBack | src/linux/up-device-supply-battery.c:713-735 | Each written threshold, parsed back as `CHARGE_LIMIT` parses, is the clamped number. |
| SupplyBattery.UnknownWrittenForUnrecognisedToken | src/linux/up-device-supply-battery.c:300-315 | A device whose only claim is the Unknown bit (set by an unrecognised token) gets "Unknown" written to `charge_types` when limiting is disabled. |
| SupplyBattery.Coldplug | src/linux/up-device-supply-battery.c:543-574 | Accepted exactly when there is a sysfs path, the scope is not "device" and the type is "battery" (both in any case). |
| SupplyBattery.ColdplugExamples | src/linux/up-device-supply-battery.c:543-574 | A "Battery" with scope "System" is accepted without a warning; scope "Device" or no path is refused. |
| SupplyBattery.Battery.constructor | src/linux/up-device-supply-battery.c:70-84 | A new device has no charge types, no active type, numeric thresholds and no warning shown. |
| SupplyBattery.Battery.GetDesignVoltage | src/linux/up-device-supply-battery.c:88-137 | Returns `DesignVoltage`, latches the warning flag once guessed, and warns only on the false-to-true transition. |
| SupplyBattery.Battery.TakeChargeType | src/linux/up-device-supply-battery.c:335-345 | ORs the token's flag into the supported set; a marked token becomes the active type. |
| SupplyBattery.Battery.GetSupportedChargeTypes | src/linux/up-device-supply-battery.c:317-346 | The supported set only grows, by the vocabulary's flags; the active type is the last marked token's, else unchanged; the settings bit follows the attribute. |
| SupplyBattery.Battery.ReadValues | src/linux/up-device-supply-battery.c:471-531 | Fills the readings as `DynamicValues` states. |
| SupplyBattery.Battery.ReadChargeControl | src/linux/up-device-supply-battery.c:441-461 | Latches the by-charge-type flag (never reset to false) and reports support and limits. |
| SupplyBattery.Battery.ReadInfo | src/linux/up-device-supply-battery.c:414-461 | Fills the record as `StaticInfo` states and updates the charge-type fields. |
| SupplyBattery.Battery.Refresh | src/linux/up-device-supply-battery.c:383-536 | Always true; an absent battery gives the zero record, no readings and no state change; otherwise the record, readings and all four fields as the functions above state. |
| SupplyBattery.Battery.SetBatteryChargeTypes | src/linux/up-device-supply-battery.c:643-676 | Always true, even when the write fails; the writes are `ChargeTypeWrites`. |
| SupplyBattery.Battery.WriteThresholds | src/linux/up-device-supply-battery.c:713-735 | Makes the `NumericWrites` and counts their failures. |
| SupplyBattery.Battery.SetChargeThresholds | src/linux/up-device-supply-battery.c:678-750 | By charge type: (0,100) writes the best charging type, anything else Long_Life, and the result is true. Numerically: false exactly when both writes were attempted and failed, with no charge-type write; otherwise (0,100) then writes the best type and anything else Custom. |
| Strings.StrLeTotal | src/up-config.c:110-114 | The `strcmp` order is total. |
| Strings.StrLeAntisymmetric | src/up-config.c:110-114 | Two names ordered both ways are equal. |
| Strings.StrLeTransitive | src/up-config.c:110-114 | The order is transitive. |
| Strings.StrLeCommonPrefix | src/up-config.c:110-114 | A shared directory prefix does not change the order of two names. |
| Config.ConfdNameShape | src/up-config.c:166 | Two characters, `-`, a body and `.conf` match exactly when the two are digits and the body has only letters, digits, `_` and `-`. |
| Config.DocumentedNameAccepted | src/up-config.c:119-122 | The documented name `01-upower-override.conf` is accepted. |
| Config.ConfdNamesAccepted | src/up-config.c:166 | An empty body is accepted, and so is a name followed by one final newline sequence (LF, CR, CR LF or another Unicode newline), which `$` lets through under GRegex's default newline convention. |
| Config.ConfdNewlinesRejected | src/up-config.c:166-183 | Two final newlines, or a newline inside the name, are rejected. |
| Config.ConfdNamesRejected | src/up-config.c:166 | No two-digit prefix, a space, or text after `.conf` is rejected. |
| Config.Candidates | src/up-config.c:176-199 | The candidates are exactly the paths of entries whose name matches and whose file query succeeded. |
| Config.Insert | src/up-config.c:201 | Inserting into a sorted list keeps it sorted and adds exactly that name. |
| Config.SortStrcmp | src/up-config.c:201 | The result is sorted by `strcmp` and a permutation of the input. |
| Config.SortIsDetermined | src/up-config.c:201 | Two sorted permutations of the same names are equal, so the order does not depend on the directory order. |
| Config.ListConfdFiles | src/up-config.c:160-204 | A directory that cannot be opened gives no list; otherwise the loop yields the sorted candidates. |
| Config.ConfdFilesOrder | src/up-config.c:127-131 | Of two listed drop-ins, the one whose name sorts first comes first. |
| Config.Merge | src/up-config.c:223-239 | The merged group has exactly the base keys; a key takes the drop-in value when the drop-in has it, otherwise keeps its own. |
| Config.OverriddenKeepsShape | src/up-config.c:209-241 | A drop-in never adds or removes groups or `[UPower]` keys, and other groups are untouched. |
| Config.MergeTwice | src/up-config.c:283-292 | Applying two drop-ins is one merge with the later one winning. |
| Config.LastWriterWins | src/up-config.c:283-292 | After all drop-ins, each base key holds the value of the last drop-in that sets it, else its base value. |
| Config.OtherGroupsUntouched | src/up-config.c:223-239 | Groups other than `[UPower]` are never changed. |
| Config.UpConfig.constructor | src/up-config.c:246-292 | The key file is the base file with the listed drop-ins applied in order. |
| Config.UpConfig.OverrideFromConfd | src/up-config.c:209-241 | An unloadable file or one without `[UPower]` changes nothing; otherwise each key the base has takes the drop-in's value. |
| Config.Example70Accepted | src/up-config.c:133-158 | The documented `70-change-percentages.conf` is accepted. |
| Config.Example99Accepted | src/up-config.c:133-158 | The documented `99-change-percentages-local.conf` is accepted. |
| Config.ExampleOrder | src/up-config.c:133-158 | Listed in the order 99 then 70, they are applied 70 then 99. |
| Config.ExampleMerge70 | src/up-config.c:133-158 | The 70 file replaces 20/5/2 with 15/10/5. |
| Config.ExampleMerge99 | src/up-config.c:133-158 | The 99 file then replaces the action level with 7.5. |
| Config.DocumentedLayering | src/up-config.c:133-158 | Loading the documented base and both drop-ins yields Low 15.0, Critical 10.0 and Action 7.5. |
| Config.Lookup | src/up-config.c:48-95 | A value exists exactly when the `[UPower]` group has the key. |
| Config.ParseInteger | src/up-config.c:61-62 | An integer parse is within the 32-bit range, and an empty value does not parse. |
| Config.GetInteger | src/up-config.c:61-62 | The integer read is within the 32-bit range. |
| Config.GetUint | src/up-config.c:58-69 | At most `INT32_MAX`; a negative integer gives 0, otherwise the integer itself. |
| Config.GetUintReadsPrinted | src/up-config.c:58-69 | A stored decimal reads back as itself, a negative one as 0, and a missing key as 0. |
| Config.ParseDouble | src/up-config.c:79-80 | A double parse consumes the whole text. |
| Config.TruncateToInt | src/up-config.c:77-80 | Storing a double into an `int` drops the fraction toward zero. |
| Config.GetDoubleAsWritten | src/up-config.c:74-85 | As written: the result is never negative and always a whole number. |
| Config.GetDouble | src/up-config.c:74-85 | As intended: the stored double, with negatives clamped to 0 and NaN kept. |
| Config.SevenAndAHalfParses | src/up-config.c:79-80 | "7.5" parses as 7.5. |
| Config.PercentageActionTruncated | src/up-config.c:74-85 | As written, a `PercentageAction` of 7.5 reads as 7.0. |
| Config.PercentageActionExact | src/up-config.c:74-85 | As intended, it reads as 7.5. |
| Config.GettersAgreeOnWholeNumbers | src/up-config.c:74-85 | For non-negative whole numbers both versions return the stored value. |
| Config.GetBoolean | src/up-config.c:48-53 | True exactly when the key exists and its value, trailing whitespace removed, is "true" or "1". |
| Config.Unescape | src/up-config.c:90-95 | An unescaped string is never longer than the raw value. |
| Config.UnescapeEscape | src/up-config.c:90-95 | Escaping any text and then reading it back gives the text. |
| Config.GetString | src/up-config.c:90-95 | A string is returned exactly when the key exists and its escapes are valid, and it is the unescaped value. |

## Left out

- Number parsing: `strtod` is modelled for decimal numbers with optional sign, fraction and exponent, and for "nan". Infinity, hexadecimal floats and `nan(...)` are not modelled. `strtol` is modelled in base 10 only.
- Floating point: doubles are exact reals plus NaN. Rounding, the single-precision `1.00f` literal and NaN propagation through division are not modelled.
- Conversions of a double to `int` for NaN or out-of-range values are undefined in C. `Config.TruncateToInt` gives 0 for NaN and truncates without a bound.
- `up_make_safe_string` and `up_convert_device_technology` are not part of this model. The record keeps the stripped attribute text.
- `up_device_supply_get_state`, the status classifier, is not part of this model. Its result is the `classified` parameter of `Refresh`.
- `up_device_battery_update_info` and `up_device_battery_report` are not part of this model. `Refresh` returns the record and the readings instead of emitting them.
- GUdev attribute access and caching are not modelled: a device is a map of attribute texts. The boolean and number readers follow the GLib behaviour stated in `Sysfs`.
- Kernel acceptance of a written value is not modelled: it is an oracle, `accepts`.
- Sysfs.Attempt: a write to an attribute the device lacks always fails, because sysfs refuses to create files. Under a plain directory standing in for sysfs (a umockdev tree), `g_file_set_contents_full` would create the file and succeed; the model does not capture that.
- `SupplyBattery.Refresh`: the design-voltage lookup happens before the record is filled rather than inside that step. The value and the latch are the same.
- GObject plumbing is left out: property get/set, `class_init`, `finalize`, and the reference-counted `up_config_new` singleton.
- Environment-dependent path building is left out: the `UMOCKDEV_DIR` prefix in `up_device_supply_device_path`, and `UPOWER_CONF_FILE_NAME` in `up_config_init`. The configuration directory is a parameter. `g_build_filename` is a plain join with `/`.
- Directory and file I/O are left out. The directory is a sequence of entries, each with whether its file query succeeds. Loading a key file is a function from path to either a loaded key file or a failure.
- GLib key-file parsing is left out. A base file that fails to load is an empty key file. UTF-8 validation of strings is not modelled.
- The order in which `g_key_file_get_keys` returns keys is not modelled. The keys are distinct, so the order does not change the result.
- The risky-action warnings in `up_config_init` are left out, and so are all other log messages. They do not change any state. The coldplug scope warning is kept as a predicate.
- The device fields `has_coldplug_values`, `coldplug_units`, `energy_old`, `energy_old_first`, `rate_old` and `charge_threshold_settings` are left out: no modelled code reads or writes them.

## Findings

| source | as written | input that shows it | evidently intended | confidence | as-written member | corrected member |
|---|---|---|---|---|---|---|
| src/up-config.c:74-85 | `up_config_get_double` stores the double from the key file in an `int` before returning it, so the fraction is lost | `PercentageAction=7.5` in `[UPower]` reads as 7.0 | return the stored double, clamping only negative values to 0.0 (the documented example sets 7.5) | high; not executed | Config.PercentageActionTruncated | Config.PercentageActionExact |
