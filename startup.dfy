/**
 * What main does with the parsed arguments before it logs in (main.py:104-116):
 * it clamps a negative connect delay to 1 and refuses to monitor unless the
 * five identifying parameters are all truthy in Python's sense.
 */
module Startup {
  import opened Wrappers
  import opened Routing

  /**
   * The parsed command line. An option left off the command line is None;
   * the delays and the version always hold a value (argparse supplies defaults).
   */
  datatype Args = Args(
    vendorId: Option<int>,
    productId: Option<int>,
    deviceName: Option<string>,
    deviceType: Option<string>,
    busIndex: Option<int>,
    voicemeeterVersion: int,
    checkDelay: int,
    connectDelay: int)

  /** The settings the monitor runs with once startup has accepted the arguments. */
  datatype Config = Config(
    vendorId: int,
    productId: int,
    route: Target,
    version: int,
    checkDelay: int,
    connectDelay: int)

  datatype ConfigError = MissingRequiredParameter

  /**
   * The connect delay main uses: a negative one becomes 1, any other is kept.
   * It is never negative, and it is positive (so a settle sleep happens)
   * exactly when the given delay was not zero.
   */
  function ClampConnectDelay(d: int): (r: int)
    ensures r >= 0
    ensures r > 0 <==> d != 0
    ensures d >= 0 ==> r == d
    ensures d < 0 ==> r == 1
  {
    if d < 0 then 1 else d
  }

  /** Python truthiness of an optional int: present and not 0. */
  predicate IntTruthy(o: Option<int>)
  {
    match o
    case None => false
    case Some(v) => v != 0
  }

  /** Python truthiness of an optional str: present and not empty. */
  predicate StrTruthy(o: Option<string>)
  {
    match o
    case None => false
    case Some(s) => s != ""
  }

  /**
   * The guard of main.py:115: every one of the five parameters is truthy. So
   * each was given, and none is a zero id, bus index 0 or an empty string.
   */
  predicate RequiredPresent(a: Args): (b: bool)
    ensures b ==> a.vendorId.Some? && a.productId.Some? && a.busIndex.Some?
                  && a.deviceName.Some? && a.deviceType.Some?
    ensures (|| a.vendorId == Some(0) || a.productId == Some(0) || a.busIndex == Some(0)
             || a.deviceName == Some("") || a.deviceType == Some("")) ==> !b
  {
    IntTruthy(a.vendorId) && IntTruthy(a.productId) && IntTruthy(a.busIndex)
    && StrTruthy(a.deviceName) && StrTruthy(a.deviceType)
  }

  /**
   * Startup: clamp the connect delay, then accept the arguments only when all
   * five required parameters are truthy. Bus index 0, vendor or product id 0
   * and an empty device name are refused like missing ones; the check delay
   * is passed on as given.
   */
  function Configure(a: Args): (r: Result<Config, ConfigError>)
    ensures r.Success? <==> RequiredPresent(a)
    ensures (|| a.busIndex == Some(0) || a.busIndex.None?
             || a.vendorId == Some(0) || a.productId == Some(0)
             || a.deviceName == Some("")) ==> r.Failure?
    ensures r.Success? ==>
              && r.value.vendorId == a.vendorId.value != 0
              && r.value.productId == a.productId.value != 0
              && r.value.route == Target(a.busIndex.value, a.deviceType.value, a.deviceName.value)
              && r.value.route.busIndex != 0 && r.value.route.deviceName != ""
              && r.value.version == a.voicemeeterVersion
              && r.value.checkDelay == a.checkDelay
              && r.value.connectDelay == ClampConnectDelay(a.connectDelay) >= 0
  {
    var connectDelay := ClampConnectDelay(a.connectDelay);
    if !RequiredPresent(a) then Failure(MissingRequiredParameter)
    else Success(Config(a.vendorId.value, a.productId.value,
                        Target(a.busIndex.value, a.deviceType.value, a.deviceName.value),
                        a.voicemeeterVersion, a.checkDelay, connectDelay))
  }
}
