/**
 * The catalogue of kernel charge types: the bit flags of
 * UpDeviceSupplyBatteryChargeTypes, the name <-> flag codec, the choice of a
 * charging type by priority, the test for threshold control through
 * charge_types, and the parse of the space-separated charge_types vocabulary
 * in which the active entry is written in brackets.
 */
module ChargeTypes {
  import opened Wrappers
  import opened Strings

  /** A set of charge types, one bit per type (a guint in the driver). */
  type Flags = bv32

  const UNKNOWN: Flags := 1 << 0
  const NA: Flags := 1 << 1
  const TRICKLE: Flags := 1 << 2
  const FAST: Flags := 1 << 3
  const STANDARD: Flags := 1 << 4
  const ADAPTIVE: Flags := 1 << 5
  const CUSTOM: Flags := 1 << 6
  const LONG_LIFE: Flags := 1 << 7
  const BYPASS: Flags := 1 << 8
  /**
   * The enumerator after BYPASS, used as the "invalid type" result. Being
   * BYPASS + 1 it is 257, which has the UNKNOWN and BYPASS bits set.
   */
  const CHARGE_TYPE_LAST: Flags := BYPASS + 1

  /** The nine named charge types. */
  predicate IsSingleFlag(f: Flags) {
    f == UNKNOWN || f == NA || f == TRICKLE || f == FAST || f == STANDARD
    || f == ADAPTIVE || f == CUSTOM || f == LONG_LIFE || f == BYPASS
  }

  /** The names the kernel uses in charge_types. */
  predicate IsKnownName(name: string) {
    name == "Unknown" || name == "N/A" || name == "Trickle" || name == "Fast" || name == "Standard"
    || name == "Adaptive" || name == "Custom" || name == "Long_Life" || name == "Bypass"
  }

  /** up_device_battery_charge_type_str_to_enum: NULL and unknown names give CHARGE_TYPE_LAST. */
  function StrToEnum(name: Option<string>): (f: Flags)
    ensures f == CHARGE_TYPE_LAST || IsSingleFlag(f)
    ensures f != CHARGE_TYPE_LAST <==> name.Some? && IsKnownName(name.value)
  {
    if name.None? then CHARGE_TYPE_LAST
    else if name.value == "Unknown" then UNKNOWN
    else if name.value == "N/A" then NA
    else if name.value == "Trickle" then TRICKLE
    else if name.value == "Fast" then FAST
    else if name.value == "Standard" then STANDARD
    else if name.value == "Adaptive" then ADAPTIVE
    else if name.value == "Custom" then CUSTOM
    else if name.value == "Long_Life" then LONG_LIFE
    else if name.value == "Bypass" then BYPASS
    else CHARGE_TYPE_LAST
  }

  /** up_device_battery_charge_type_enum_to_str: anything but a single named flag reads "Unknown". */
  function EnumToStr(f: Flags): (name: string)
    ensures IsKnownName(name)
    ensures !IsSingleFlag(f) ==> name == "Unknown"
  {
    if f == UNKNOWN then "Unknown"
    else if f == NA then "N/A"
    else if f == TRICKLE then "Trickle"
    else if f == FAST then "Fast"
    else if f == STANDARD then "Standard"
    else if f == ADAPTIVE then "Adaptive"
    else if f == CUSTOM then "Custom"
    else if f == LONG_LIFE then "Long_Life"
    else if f == BYPASS then "Bypass"
    else "Unknown"
  }

  /** Each named flag survives the trip through its name. */
  lemma FlagRoundTrip(f: Flags)
    requires IsSingleFlag(f)
    ensures StrToEnum(Some(EnumToStr(f))) == f
  {
  }

  /** Each known name survives the trip through its flag. */
  lemma NameRoundTrip(name: string)
    requires IsKnownName(name)
    ensures EnumToStr(StrToEnum(Some(name))) == name
  {
  }

  /**
   * The invalid-type value is not a separate code: it carries the UNKNOWN and
   * BYPASS bits, and its name reads back as UNKNOWN.
   */
  lemma InvalidTypeOverlapsUnknown()
    ensures CHARGE_TYPE_LAST == UNKNOWN | BYPASS
    ensures !IsSingleFlag(CHARGE_TYPE_LAST)
    ensures StrToEnum(Some(EnumToStr(CHARGE_TYPE_LAST))) == UNKNOWN
  {
  }

  /**
   * up_device_battery_charge_find_available_charge_types_for_charging: the
   * first of Fast, Standard, Adaptive that is supported, else CHARGE_TYPE_LAST.
   */
  function BestForCharging(supported: Flags): (r: Flags)
    ensures r == FAST || r == STANDARD || r == ADAPTIVE || r == CHARGE_TYPE_LAST
    ensures r != CHARGE_TYPE_LAST ==> supported & r != 0
    ensures r == CHARGE_TYPE_LAST <==> supported & (FAST | STANDARD | ADAPTIVE) == 0
    ensures r == STANDARD ==> supported & FAST == 0
    ensures r == ADAPTIVE ==> supported & (FAST | STANDARD) == 0
  {
    if supported & FAST != 0 then FAST
    else if supported & STANDARD != 0 then STANDARD
    else if supported & ADAPTIVE != 0 then ADAPTIVE
    else CHARGE_TYPE_LAST
  }

  /**
   * up_device_supply_battery_is_charge_threshold_by_charge_type, given which
   * numeric threshold attributes exist: never when one of them does;
   * otherwise when Long_Life and one of Standard, Adaptive, Fast are supported.
   */
  function IsThresholdByChargeType(hasStart: bool, hasEnd: bool, supported: Flags): (r: bool)
    ensures r ==> !hasStart && !hasEnd
    ensures r <==> !hasStart && !hasEnd && supported & LONG_LIFE != 0
                   && BestForCharging(supported) != CHARGE_TYPE_LAST
  {
    if hasStart || hasEnd then false
    else if supported & LONG_LIFE != 0 then supported & (STANDARD | ADAPTIVE | FAST) != 0
    else false
  }

  /**
   * up_device_supply_battery_is_charge_type_exist: the name's flag shares a
   * bit with the supported set. A known name is thus found exactly when its
   * type is supported; an unknown name parses to 257 and is "found" whenever
   * the Unknown or the Bypass bit is supported.
   */
  function IsChargeTypeExist(supported: Flags, name: string): (r: bool)
    ensures IsKnownName(name) ==> (r <==> StrToEnum(Some(name)) & supported == StrToEnum(Some(name)))
    ensures !IsKnownName(name) ==> (r <==> supported & (UNKNOWN | BYPASS) != 0)
  {
    StrToEnum(Some(name)) & supported != 0
  }

  // ---------------------------------------------------------------------
  // The charge_types vocabulary

  /**
   * Whether a token marks the active type: g_utf8_strchr (token, 1, '[')
   * looks at the first byte only, so only a leading '[' counts.
   */
  function MarksActive(token: string): (r: bool)
    ensures r ==> '[' in token
  {
    |token| > 0 && token[0] == '['
  }

  /** The marking '[' is one remove_brackets drops: the name is read from the rest of the token. */
  lemma MarkDropped(token: string)
    requires MarksActive(token)
    ensures Washed(token) == Washed(token[1..])
  {
  }

  /** A '[' anywhere but first does not mark a token, however it is bracketed. */
  lemma InnerBracketIgnored(a: string, b: string)
    requires a != [] && a[0] != '['
    ensures !MarksActive(a + "[" + b)
  {
    assert (a + "[" + b)[0] == a[0];
  }

  /** remove_brackets: every '[' is dropped and the text stops at the first ']'. */
  function Washed(token: string): (r: string)
    ensures '[' !in r && ']' !in r
    ensures |r| <= |token|
  {
    if token == [] then []
    else if token[0] == '[' then Washed(token[1..])
    else if token[0] == ']' then []
    else [token[0]] + Washed(token[1..])
  }

  /** remove_brackets, which builds its result one character at a time. */
  method RemoveBrackets(token: string) returns (washed: string)
    ensures washed == Washed(token)
  {
    washed := [];
    var i := 0;
    while i < |token|
      invariant 0 <= i <= |token|
      invariant washed + Washed(token[i..]) == Washed(token)
    {
      if token[i] == '[' {
        assert token[i..][1..] == token[i + 1..];
        i := i + 1;
        continue;
      }
      if token[i] == ']' {
        break;
      }
      assert token[i..][1..] == token[i + 1..];
      washed := washed + [token[i]];
      i := i + 1;
    }
  }

  /** A bracketed name without brackets inside washes back to the name, whatever follows the ']'. */
  lemma {:induction false} WashedMarkedName(name: string, rest: string)
    requires '[' !in name && ']' !in name
    ensures Washed("[" + name + "]" + rest) == name
  {
    var t := "[" + name + "]" + rest;
    assert t[0] == '[';
    assert t[1..] == name + ("]" + rest);
    WashedPlain(name, "]" + rest);
  }

  lemma {:induction false} WashedPlain(name: string, tail: string)
    requires '[' !in name && ']' !in name
    requires tail != [] && tail[0] == ']'
    ensures Washed(name + tail) == name
    decreases |name|
  {
    if name == [] {
      assert name + tail == tail;
    } else {
      assert (name + tail)[0] == name[0];
      assert (name + tail)[1..] == name[1..] + tail;
      WashedPlain(name[1..], tail);
      assert [name[0]] + name[1..] == name;
    }
  }

  /** The name a token contributes: washed when it marks the active type, as is otherwise. */
  function TokenName(token: string): string {
    if MarksActive(token) then Washed(token) else token
  }

  /** The flags a sequence of tokens contributes to supported_charge_types. */
  function SupportedIn(tokens: seq<string>): Flags {
    if tokens == [] then 0
    else SupportedIn(tokens[..|tokens| - 1]) | StrToEnum(Some(TokenName(tokens[|tokens| - 1])))
  }

  /** charge_type after the tokens: the flag of the last marked token, else `current`. */
  function ActiveIn(tokens: seq<string>, current: Flags): Flags {
    if tokens == [] then current
    else if MarksActive(tokens[|tokens| - 1]) then StrToEnum(Some(Washed(tokens[|tokens| - 1])))
    else ActiveIn(tokens[..|tokens| - 1], current)
  }

  /** Every token's flag, recognised or not, ends up in the supported set. */
  lemma {:induction false} TokenSupported(tokens: seq<string>, i: nat)
    requires i < |tokens|
    ensures StrToEnum(Some(TokenName(tokens[i]))) & SupportedIn(tokens) == StrToEnum(Some(TokenName(tokens[i])))
    decreases |tokens|
  {
    var n := |tokens| - 1;
    if i < n {
      TokenSupported(tokens[..n], i);
      assert tokens[..n][i] == tokens[i];
    }
  }

  /**
   * An unrecognised token, bracketed or not, adds CHARGE_TYPE_LAST and so
   * switches on the UNKNOWN and BYPASS bits of the supported set.
   */
  lemma UnrecognisedTokenClaimsUnknownAndBypass(tokens: seq<string>, i: nat)
    requires i < |tokens| && !IsKnownName(TokenName(tokens[i]))
    ensures SupportedIn(tokens) & UNKNOWN != 0 && SupportedIn(tokens) & BYPASS != 0
  {
    TokenSupported(tokens, i);
  }

  /** Without a bracketed token the active type does not change. */
  lemma {:induction false} ActiveKeptWithoutMark(tokens: seq<string>, current: Flags)
    requires forall k :: 0 <= k < |tokens| ==> !MarksActive(tokens[k])
    ensures ActiveIn(tokens, current) == current
    decreases |tokens|
  {
    if tokens != [] {
      var prefix := tokens[..|tokens| - 1];
      assert forall k :: 0 <= k < |prefix| ==> prefix[k] == tokens[k];
      ActiveKeptWithoutMark(prefix, current);
    }
  }

  /** The last bracketed token decides the active type. */
  lemma {:induction false} ActiveIsLastMarked(tokens: seq<string>, current: Flags, i: nat)
    requires i < |tokens| && MarksActive(tokens[i])
    requires forall k :: i < k < |tokens| ==> !MarksActive(tokens[k])
    ensures ActiveIn(tokens, current) == StrToEnum(Some(Washed(tokens[i])))
    decreases |tokens|
  {
    var n := |tokens| - 1;
    if i < n {
      var prefix := tokens[..n];
      assert forall k :: i < k < |prefix| ==> prefix[k] == tokens[k];
      assert prefix[i] == tokens[i];
      ActiveIsLastMarked(prefix, current, i);
    }
  }

  lemma ExampleTokens(text: string)
    requires text == "Standard [Fast] Adaptive"
    ensures Split(text, ' ') == ["Standard", "[Fast]", "Adaptive"]
  {
    SplitThree("Standard", "[Fast]", "Adaptive", ' ');
    assert text == "Standard" + [' '] + "[Fast]" + [' '] + "Adaptive";
  }

  lemma ExampleNames()
    ensures TokenName("[Fast]") == "Fast"
    ensures TokenName("Standard") == "Standard"
    ensures TokenName("Adaptive") == "Adaptive"
  {
    WashedMarkedName("Fast", "");
    assert "[Fast]" == "[" + "Fast" + "]" + "";
  }

  lemma ExampleFlags(tokens: seq<string>)
    requires tokens == ["Standard", "[Fast]", "Adaptive"]
    ensures SupportedIn(tokens) == STANDARD | FAST | ADAPTIVE
  {
    ExampleNames();
    assert StrToEnum(Some("Standard")) == STANDARD;
    assert StrToEnum(Some("Fast")) == FAST;
    assert StrToEnum(Some("Adaptive")) == ADAPTIVE;
    var one := tokens[..1];
    var two := tokens[..2];
    assert one[..0] == [];
    assert two[..1] == one;
    assert tokens[..2] == two;
    assert SupportedIn(one) == STANDARD;
    assert SupportedIn(two) == STANDARD | FAST;
  }

  lemma ActiveOfThree(a: string, b: string, c: string, current: Flags)
    requires MarksActive(b) && !MarksActive(c)
    ensures ActiveIn([a, b, c], current) == StrToEnum(Some(Washed(b)))
  {
    assert [a, b, c][..2] == [a, b];
  }

  /** "Standard [Fast] Adaptive": three supported types, Fast active. */
  lemma VocabularyExample(text: string, current: Flags)
    requires text == "Standard [Fast] Adaptive"
    ensures SupportedIn(Split(text, ' ')) == STANDARD | FAST | ADAPTIVE
    ensures ActiveIn(Split(text, ' '), current) == FAST
  {
    ExampleTokens(text);
    ExampleNames();
    ExampleFlags(Split(text, ' '));
    ActiveOfThree("Standard", "[Fast]", "Adaptive", current);
    assert StrToEnum(Some("Fast")) == FAST;
  }
}
