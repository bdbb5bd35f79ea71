/**
 * Building the routing command of set_voicemeeter_output (main.py:74-80):
 * the parameter key `Bus[<n>].device.<type>`, where <n> is the bus index
 * written in decimal as Python's str() writes an int, and the value, the
 * device name. A parser for such keys is the partner that shows the key
 * determines the bus index and the device type.
 */
module Routing {
  import opened Wrappers
  import opened Events

  /** Where and what to route: bus index, device type (wdm, ks, mme, asio) and device name. */
  datatype Target = Target(busIndex: int, deviceType: string, deviceName: string)

  predicate IsDigit(c: char)
  {
    '0' <= c <= '9'
  }

  predicate AllDigits(s: string)
  {
    forall i | 0 <= i < |s| :: IsDigit(s[i])
  }

  function DigitChar(d: nat): (c: char)
    requires d < 10
    ensures IsDigit(c)
    ensures c == '0' <==> d == 0
  {
    (48 + d) as char
  }

  function DigitValue(c: char): (d: nat)
    requires IsDigit(c)
    ensures d < 10 && DigitChar(d) == c
  {
    c as int - 48
  }

  /** The decimal digits of `n`, most significant first, without leading zeros. */
  function NatDigits(n: nat): (s: string)
    ensures |s| >= 1 && AllDigits(s)
    ensures s[0] == '0' <==> n == 0
    decreases n
  {
    if n < 10 then [DigitChar(n)] else NatDigits(n / 10) + [DigitChar(n % 10)]
  }

  /** The number a non-empty string of decimal digits denotes. */
  function DecimalValue(s: string): nat
    requires AllDigits(s)
    decreases |s|
  {
    if s == [] then 0 else 10 * DecimalValue(s[..|s| - 1]) + DigitValue(s[|s| - 1])
  }

  lemma {:induction false} NatDigitsRoundTrip(n: nat)
    ensures DecimalValue(NatDigits(n)) == n
    decreases n
  {
    var s := NatDigits(n);
    if n >= 10 {
      NatDigitsRoundTrip(n / 10);
      assert s[..|s| - 1] == NatDigits(n / 10);
    } else {
      assert s[..|s| - 1] == [];
    }
  }

  /** `str(i)` for a Python int: an optional minus sign, then the digits of |i|. */
  function IntDecimal(i: int): (s: string)
    ensures |s| >= 1 && (s[0] == '-' <==> i < 0)
    ensures var digits := if i < 0 then s[1..] else s;
            |digits| >= 1 && AllDigits(digits) && (digits[0] == '0' <==> i == 0)
  {
    if i < 0 then "-" + NatDigits(-i) else NatDigits(i)
  }

  /** Reads back what IntDecimal writes: an optional '-', then at least one digit. */
  function ParseInt(s: string): Option<int>
  {
    if |s| >= 2 && s[0] == '-' && AllDigits(s[1..]) then Some(0 - DecimalValue(s[1..]) as int)
    else if |s| >= 1 && AllDigits(s) then Some(DecimalValue(s))
    else None
  }

  lemma IntDecimalRoundTrip(i: int)
    ensures ParseInt(IntDecimal(i)) == Some(i)
  {
    if i < 0 {
      NatDigitsRoundTrip(-i);
      NegativeRoundTrip(NatDigits(-i), -i);
    } else {
      NatDigitsRoundTrip(i);
    }
  }

  lemma NegativeRoundTrip(digits: string, n: nat)
    requires |digits| >= 1 && AllDigits(digits) && DecimalValue(digits) == n
    ensures ParseInt("-" + digits) == Some(-(n as int))
  {
    var s := "-" + digits;
    assert s[0] == '-' && s[1..] == digits;
  }

  /** A decimal int holds only digits and possibly a leading '-', so no ']'. */
  lemma IntDecimalNoBracket(i: int)
    ensures forall k | 0 <= k < |IntDecimal(i)| :: IntDecimal(i)[k] != ']'
  {
    var s := IntDecimal(i);
    if i < 0 {
      var digits := NatDigits(-i);
      forall k | 1 <= k < |s|
        ensures s[k] != ']'
      {
        assert s[k] == digits[k - 1] && IsDigit(digits[k - 1]);
      }
    }
  }

  /** The parameter name set_voicemeeter_output formats: `Bus[{bus_index}].device.{device_type}`. */
  function RoutingKey(busIndex: int, deviceType: string): string
  {
    "Bus[" + IntDecimal(busIndex) + "].device." + deviceType
  }

  /** The first position at or after `from` where `s` holds `c`, if any. */
  function IndexFrom(s: string, c: char, from: nat): (r: Option<nat>)
    ensures r.Some? ==> from <= r.value < |s| && s[r.value] == c
                        && forall k | from <= k < r.value :: s[k] != c
    ensures r.None? ==> forall k | from <= k < |s| :: s[k] != c
    decreases |s| - from
  {
    if from >= |s| then None
    else if s[from] == c then Some(from)
    else IndexFrom(s, c, from + 1)
  }

  /** Recovers the bus index and device type from a routing key. */
  function ParseRoutingKey(key: string): Option<(int, string)>
  {
    if |key| < 4 || key[..4] != "Bus[" then None
    else
      match IndexFrom(key, ']', 4)
      case None => None
      case Some(j) =>
        var rest := key[j + 1..];
        if |rest| < 8 || rest[..8] != ".device." then None
        else
          match ParseInt(key[4..j])
          case None => None
          case Some(b) => Some((b, rest[8..]))
  }

  /** The key names its bus and device type unambiguously: parsing it gives both back. */
  lemma RoutingKeyRoundTrip(busIndex: int, deviceType: string)
    ensures ParseRoutingKey(RoutingKey(busIndex, deviceType)) == Some((busIndex, deviceType))
  {
    IntDecimalRoundTrip(busIndex);
    IntDecimalNoBracket(busIndex);
    ParseBracketed(IntDecimal(busIndex), deviceType);
  }

  /** Between `Bus[` and `].device.`, any text free of ']' is what ParseInt is given. */
  lemma ParseBracketed(d: string, deviceType: string)
    requires forall k | 0 <= k < |d| :: d[k] != ']'
    ensures ParseRoutingKey("Bus[" + d + "].device." + deviceType)
            == match ParseInt(d)
               case None => None
               case Some(b) => Some((b, deviceType))
  {
    var rest := "].device." + deviceType;
    var key := "Bus[" + d + "].device." + deviceType;
    assert key == "Bus[" + (d + rest);
    FirstClose(key, d, rest);
    var close := 4 + |d|;
    assert key[..4] == "Bus[";
    assert key[4..close] == d;
    assert key[close + 1..] == rest[1..] && rest[1..] == ".device." + deviceType;
  }

  /** In `Bus[` + d + rest, with no ']' in d and rest opening with ']', the first ']' ends d. */
  lemma FirstClose(key: string, d: string, rest: string)
    requires key == "Bus[" + (d + rest)
    requires forall k | 0 <= k < |d| :: d[k] != ']'
    requires rest != [] && rest[0] == ']'
    ensures IndexFrom(key, ']', 4) == Some(4 + |d|)
  {
    assert key[4 + |d|] == ']';
    forall k | 4 <= k < 4 + |d|
      ensures key[k] != ']'
    {
      assert key[k] == d[k - 4];
    }
  }

  /** The one VBVMR_SetParameterStringA call set_voicemeeter_output issues for `t`. */
  function SetOutputCommand(t: Target): Event
  {
    SetParam(RoutingKey(t.busIndex, t.deviceType), t.deviceName)
  }

  /**
   * The routing command names its target: the key parses back to the bus
   * index and device type, and the value is the device name.
   */
  lemma SetOutputCommandNamesTarget(t: Target)
    ensures SetOutputCommand(t).SetParam?
    ensures ParseRoutingKey(SetOutputCommand(t).key) == Some((t.busIndex, t.deviceType))
    ensures SetOutputCommand(t).value == t.deviceName
  {
    RoutingKeyRoundTrip(t.busIndex, t.deviceType);
  }

  /** The routing command for bus 2, a WDM device named "Speakers (Game-Audeze Maxwell)". */
  lemma MaxwellOnBusTwo()
    ensures SetOutputCommand(Target(2, "wdm", "Speakers (Game-Audeze Maxwell)"))
         == SetParam("Bus[2].device.wdm", "Speakers (Game-Audeze Maxwell)")
  {
    assert NatDigits(2) == "2";
  }
}
