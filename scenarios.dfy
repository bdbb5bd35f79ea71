/**
 * Concrete runs of the login loop and the monitoring loop, each driven
 * through the method that models it.
 */
module Scenarios {
  import opened Events
  import opened Routing
  import opened Startup
  import opened Login
  import opened Monitor

  /** Two refused logins, then success on the third of three attempts: two retry delays. */
  method LoginAfterTwoRefusals() returns (ok: bool, trace: seq<Event>)
    ensures ok && trace == [Login, Sleep(3), Login, Sleep(3), Login]
  {
    var results := [-1, -1, 0];
    ok, trace := VoicemeeterLogin(6, 3, 3, results);
    assert results[..3] == results;
  }

  /** Two attempts refused in turn: login gives up after both, having slept after each. */
  method LoginExhausted() returns (ok: bool, trace: seq<Event>)
    ensures !ok && trace == [Login, Sleep(3), Login, Sleep(3)]
  {
    var results := [-1, -1];
    ok, trace := VoicemeeterLogin(6, 2, 3, results);
    assert results[..2] == results;
  }

  /** Voicemeeter reported not running three times: it is launched once, on the first report. */
  method LaunchOnce() returns (ok: bool, trace: seq<Event>)
    ensures !ok && trace == [Login, Run(6), Sleep(5), Login, Sleep(3), Login, Sleep(3)]
  {
    var results := [1, 1, 1];
    ok, trace := VoicemeeterLogin(6, 3, 3, results);
    assert results[..3] == results;
  }

  /**
   * Polls absent, absent, present, present, absent with no connect delay: one
   * routing command, right after the third poll, and no settle sleep.
   */
  method PresentAfterTwoAbsent(cfg: Config) returns (trace: seq<Event>)
    requires cfg.checkDelay == 1 && cfg.connectDelay == 0
    ensures trace == [Poll, Sleep(1), Poll, Sleep(1), Poll, SetOutputCommand(cfg.route), Sleep(1),
                      Poll, Sleep(1), Poll, Sleep(1)]
  {
    var observations := [false, false, true, true, false];
    var connected, raised;
    connected, trace, raised := MonitorLoop(cfg, observations);
    var st := SettingsOf(cfg);
    var o1, o2, o3, o4 := [false], [false, false], [false, false, true], [false, false, true, true];
    assert o1[..0] == [] && o2[..1] == o1 && o3[..2] == o2 && o4[..3] == o3 && observations[..4] == o4;
    assert Ticks(st, o1) == [Poll, Sleep(1)];
    assert Ticks(st, o2) == [Poll, Sleep(1), Poll, Sleep(1)];
    assert Ticks(st, o3) == [Poll, Sleep(1), Poll, Sleep(1), Poll, st.route, Sleep(1)];
    assert Ticks(st, o4) == [Poll, Sleep(1), Poll, Sleep(1), Poll, st.route, Sleep(1), Poll, Sleep(1)];
  }
}
