# voicemeeter-auto-attach-bus, modelled in Dafny

The program watches for one USB headset, identified by its HID vendor and
product id. Each time the headset appears, it routes a Voicemeeter output bus
to the headset's audio device. Before it starts watching it does two things:

- It logs in to the Voicemeeter Remote API. If Voicemeeter is not running, it
  launches the requested edition once.
- It checks its command-line arguments.

This project models four parts of `main.py` and proves properties of each:

- **Login retry loop** (`voicemeeter_login`). The model is the method
  `Login.VoicemeeterLogin`, proved equal to the specification function
  `Login.Attempts`. Lemmas about `Attempts` give:
  - when login succeeds;
  - how many `VBVMR_Login` calls it makes;
  - that Voicemeeter is launched at most once, with the requested version;
  - which sleeps happen, and in what order.
- **Routing command** (`set_voicemeeter_output`). The model is
  `Routing.SetOutputCommand`. It builds the key `Bus[<n>].device.<type>`, with
  the integer written out in decimal the way Python's `str` writes it. A parser
  for such keys is the partner: the key parses back to the bus index and device
  type it was built from.
- **Monitoring loop** (the `while True` loop in `main`). The model is the method
  `Monitor.MonitorLoop`, proved equal to the specification function
  `Monitor.Ticks`, over a finite sequence of presence observations. Lemmas
  about `Ticks` show:
  - one poll per tick;
  - one routing command per false-to-true edge of presence, and none for
    repeated present observations;
  - the settle sleep is placed before each routing command exactly when
    `CONNECT_DELAY` is positive;
  - every tick closes with one `check_delay` sleep.
- **Startup**. `Startup.ClampConnectDelay` turns a negative connect delay
  into 1. `Startup.Configure` checks that all five required parameters are truthy.
  `AutoAttach.RunMain` chains startup, login and monitoring.

Foreign calls are inputs of the model:

- The values `VBVMR_Login` returns are a sequence of integers.
- The answers of the HID presence query, one per tick, are a sequence of
  booleans.

What the program does to the outside world is recorded as a trace of
`Events.Event` values:

- `Login`: one call of `VBVMR_Login`;
- `Run(version)`: `VBVMR_RunVoicemeeter`;
- `Sleep(seconds)`: `time.sleep`;
- `Poll`: one HID presence query;
- `SetParam(key, value)`: `VBVMR_SetParameterStringA`.

Three behaviours of the code worth knowing, which the model follows:

- **Check delay.** The code clamps only the connect delay. A negative
  `--check-delay` reaches `time.sleep`, which raises at the end of the first
  tick. The model records this as the `raised` result of `MonitorLoop` and as
  the `SleepRaised` exit of `RunMain`.
- **Launching attempt.** The attempt that launches Voicemeeter uses up one of
  the `retries` attempts.
- **Falsy values.** The required-parameter check uses Python truthiness. So
  `--bus-index 0` is refused, although the option's help text
  (`main.py:91`) calls index 0 bus A1: here the help text and the code
  disagree. A vendor or product id of 0 is refused
  too. `Startup.Configure` states both.

## Model

| member | source | states |
|---|---|---|
| Startup.ClampConnectDelay | main.py:109-113 | a negative connect delay becomes 1 and any other is kept; the result is never negative, and it is positive (so a settle sleep happens) exactly when the given delay is not 0 |
| Startup.RequiredPresent | main.py:115 | when it holds, all five required parameters were given; a vendor or product id of 0, bus index 0, or an empty device name or type makes it fail, as Python's truthiness does |
| Startup.Configure | main.py:104-116 | the arguments are accepted iff vendor id, product id, bus index, device name and device type are all truthy; bus index 0 or missing, vendor or product id 0 and an empty device name are refused; an accepted configuration carries the given target, version and check delay unchanged and the clamped connect delay |
| Login.Block | main.py:29-50 | one attempt that did not succeed: it starts with the VBVMR_Login call and ends with exactly one sleep; it has three events, the middle one the launch of the requested version, exactly when the result is the first 1, and then the sleep is the 5-second wait, otherwise `retry_delay` |
| Login.VoicemeeterLogin | main.py:11-53 | the loop's result and trace are those of Attempts on the first `retries` login results; it returns True iff one of them is 0; VBVMR_Login is called up to and including the first 0 and so at most `retries` times, exactly `retries` times when no 0 comes, and never when `retries <= 0`; at most one launch, always with the requested version |
| Login.AttemptsOk | main.py:43-46 | login succeeds iff some VBVMR_Login call returns 0 |
| Login.AttemptsLogins | main.py:26-27 | VBVMR_Login is called up to and including the first 0, or for every attempt when no 0 comes |
| Login.AttemptsLaunch | main.py:34-38 | Voicemeeter is launched once iff it was not launched yet and a 1 comes before the first 0, and otherwise never; a later 1 does not launch again |
| Login.AttemptsRunVersion | main.py:37 | every launch is of the requested Voicemeeter version |
| Login.AttemptsLaunchAttempt | main.py:34-40 | a launch implies a 1 among the results, and exactly as many VBVMR_Login calls precede it as it took to get the first 1, so the launching call counts against the retry budget |
| Login.AttemptsSleeps | main.py:29-32 | every VBVMR_Login call but a successful one is followed by a sleep, and success returns without sleeping |
| Login.AttemptsOrder | main.py:26-50 | the trace starts with VBVMR_Login; a `retry_delay` sleep directly follows a failed call, the launch directly follows a call and is directly followed by the 5-second wait, and no other sleep follows the launch; a success ends the trace with its VBVMR_Login |
| Login.AttemptsQuiet | main.py:11-53 | logging in neither polls the device nor sets a Voicemeeter parameter |
| Routing.NatDigits | main.py:77 | the decimal digits of a natural number are non-empty, all digits, and start with '0' only for 0 |
| Routing.NatDigitsRoundTrip | main.py:77 | reading the digits back gives the number |
| Routing.IntDecimal | main.py:77 | `str(bus_index)`: a '-' exactly for a negative index, then non-empty decimal digits with no leading zero except for 0 itself |
| Routing.IntDecimalRoundTrip | main.py:77 | `str(bus_index)` of any integer, negative ones included, parses back to it |
| Routing.IntDecimalNoBracket | main.py:77 | a formatted integer holds no ']', so it cannot end the key's bracket early |
| Routing.RoutingKey | main.py:77 | the key `Bus[<n>].device.<type>`; it has no contract of its own, and RoutingKeyRoundTrip states that it determines the bus index and device type |
| Routing.RoutingKeyRoundTrip | main.py:77 | the key `Bus[<n>].device.<type>` parses back to exactly the bus index and device type |
| Routing.SetOutputCommand | main.py:74-79 | the one set-parameter call of set_voicemeeter_output; it has no contract of its own, and SetOutputCommandNamesTarget states what its key and value are |
| Routing.SetOutputCommandNamesTarget | main.py:74-79 | set_voicemeeter_output issues one set-parameter call whose key names the target's bus and device type and whose value is the device name |
| Routing.MaxwellOnBusTwo | main.py:73-79 | bus 2, type wdm, device "Speakers (Game-Audeze Maxwell)" gives key `Bus[2].device.wdm` with that name as value |
| Monitor.TickEvents | main.py:124-137 | the events of one tick before its closing sleep; it has no contract of its own, and TickCounts, RouteOnlyOnEdge and TicksRoutePlacement state what a tick does |
| Monitor.MonitorLoop | main.py:118-140 | the loop's trace is Ticks of the observations, and afterwards `previously_connected` equals the last observation (False before any tick); with a negative check delay the first tick's closing sleep raises and the trace is that tick's events |
| Monitor.TickCounts | main.py:124-137 | one tick polls once, routes once exactly on a false-to-true edge, and sleeps before routing exactly when the connect delay is positive |
| Monitor.RouteOnlyOnEdge | main.py:126-133 | a tick issues the routing command only when the device is present now and was not before |
| Monitor.TicksCounts | main.py:123-140 | over all ticks: one poll per tick, one routing command per false-to-true edge, one closing sleep per tick plus one settle sleep per routing command when CONNECT_DELAY is positive, no login and no launch |
| Monitor.TicksRoutePlacement | main.py:126-132 | each routing command is the configured one; it directly follows the settle sleep when CONNECT_DELAY is positive and the tick's poll otherwise; and the tick it belongs to is one where presence rose |
| AutoAttach.MonitorPhase | main.py:123-140 | the monitoring phase's poll and routing counts, whether or not the first sleep raised, and every command in it is the configured one |
| AutoAttach.SessionFacts | main.py:118-140 | from the events of a session: no poll or routing command precedes a VBVMR_Login call; at most 10 login calls and one launch; polling or routing implies a login result 0; one poll per tick and one routing command per rising edge; every command is the configured one |
| AutoAttach.Session | main.py:118-140 | with accepted arguments: the LoginFailed outcome iff no login result among the first 10 is 0, and then the events are exactly the login's; otherwise they are the login's followed by the monitoring loop's (all ticks, or the first tick when a negative check delay makes the sleep raise); no poll or routing command precedes a login call; one routing command per rising edge, each for the configured target |
| AutoAttach.RunMain | main.py:104-140 | a usage error, with nothing done, iff a required parameter is falsy; otherwise the events are the login's followed, after a successful login, by the monitoring loop's for the accepted configuration, and no poll or routing command precedes a login call; every routing command is built from the command-line bus index, device type and device name |
| Scenarios.LoginAfterTwoRefusals | main.py:26-46 | with 3 retries and results -1, -1, 0, login succeeds after exactly two retry delays |
| Scenarios.LoginExhausted | main.py:26-32 | with 2 retries and only negative results, login gives up after two calls and two sleeps |
| Scenarios.LaunchOnce | main.py:34-50 | three results of 1 launch Voicemeeter once, on the first, and later ones just sleep `retry_delay` |
| Scenarios.PresentAfterTwoAbsent | main.py:123-140 | observations absent, absent, present, present, absent with no connect delay route once, right after the third poll, with no settle sleep |

## Left out

- Loading `VoicemeeterRemote64.dll` through `ctypes` (`main.py:8-9`). Every DLL
  function is a trace event, or an input when its return value is used.
- HID enumeration in `get_device_connected` (`main.py:56-58`). Its answer for
  each tick is one element of the observation sequence.
- `get_output_device_list` and the `--list-devices` branch (`main.py:61-71`,
  `97-102`). They only print what the DLL reports.
- `argparse`: option parsing, hex parsing of ids, the `choices` lists and the
  defaults (`main.py:85-95`). The model starts from the parsed `Args`.
- `print` output, and real time spent in `time.sleep`. A sleep is an event
  carrying its duration.
- The 256-byte ctypes buffers and the `.encode()` of key and value
  (`main.py:75-78`). The model keeps key and value as strings. Assigning more
  than 256 bytes (after UTF-8 encoding) to such a buffer raises `ValueError`.
  So a device name or key that long ends the program at the first rising
  edge, before `VBVMR_SetParameterStringA` is called. A value of exactly 256
  encoded bytes fills the buffer with no terminating NUL, and
  `VBVMR_SetParameterStringA` then reads a string that is not terminated.
- Monitor.MonitorLoop: does not capture that `ValueError`, nor the missing
  NUL at exactly 256 bytes. It issues the routing command with the whole key
  and device name and keeps monitoring whatever their length.
- Monitor.MonitorLoop: does not capture that `time.sleep` raises
  `OverflowError` for a delay beyond the platform's time range (about
  9.2·10^9 seconds). A check delay that large ends the program at the end of
  the first tick. A connect delay that large ends it at the first rising
  edge, before the routing command. The model raises only for a negative
  check delay, because the exact bound depends on the platform.
- The return value of `VBVMR_SetParameterStringA`. The code ignores it, and so
  does the model: the state becomes connected regardless.
- `VBVMR_Logout` (`main.py:141`). It comes after an endless loop, so it is
  unreachable.
- The endless `while True`. The model runs one tick per given observation and
  stops at the end of the sequence.
- The globals `VENDOR_ID` and `PRODUCT_ID`. They only feed the HID query,
  which is an input. `CONNECT_DELAY` and `args.connect_delay` are clamped the
  same way, so the model keeps one clamped value.
- Login.VoicemeeterLogin: a negative `retry_delay` would make `time.sleep`
  raise. The model records it as a `Sleep` event, because `main` always
  passes 3.
- Login.VoicemeeterLogin: the model needs at least `retries` login results,
  one for each call the loop could make.
