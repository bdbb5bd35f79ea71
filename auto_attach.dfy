/**
 * main in monitoring mode (main.py:104-140): validate the arguments, log in
 * with voicemeeter_login's defaults, then run the monitoring loop. The
 * run is bounded by the presence observations given; the login results and
 * the observations stand for what the foreign libraries return.
 */
module AutoAttach {
  import opened Events
  import opened Routing
  import opened Startup
  import opened Login
  import opened Monitor

  /** main calls voicemeeter_login with its default retry budget and retry delay. */
  const LoginRetries := 10
  const LoginRetryDelay := 3

  /** How a bounded run of main ends. */
  datatype Exit =
    | UsageError       // parser.error: a required parameter is missing or falsy
    | LoginFailed      // exit(1) right after voicemeeter_login returned False
    | SleepRaised      // time.sleep refused a negative check delay at the end of the first tick
    | StillMonitoring  // every observed tick ran and the loop goes on

  /** No presence poll and no routing command comes before a VBVMR_Login call. */
  predicate LoginBeforeMonitoring(t: seq<Event>)
  {
    forall i, j | 0 <= i < j < |t| && t[j] == Login :: !t[i].Poll? && !t[i].SetParam?
  }

  /** Every routing command in `t` is `route`. */
  predicate RoutesAre(t: seq<Event>, route: Event)
  {
    forall k | 0 <= k < |t| && t[k].SetParam? :: t[k] == route
  }

  /**
   * Polls and routing commands of a monitoring phase: one poll per tick and
   * one command per rising edge, or only the first tick's when its closing
   * sleep raised.
   */
  predicate PhaseCounts(t: seq<Event>, observations: seq<bool>, raised: bool)
  {
    && (!raised ==> Count(t, PollKind) == |observations|
                    && Count(t, SetParamKind) == RisingEdges(observations))
    && (raised ==> observations != [] && Count(t, PollKind) == 1
                   && Count(t, SetParamKind) == if observations[0] then 1 else 0)
  }

  /**
   * The counts of a session that ended with `exit` after the login results
   * `rs`: at most LoginRetries login calls and one launch, polling and routing
   * only after a result 0, the monitoring phase's counts once monitoring ran,
   * and every routing command `route`.
   */
  predicate SessionCounts(trace: seq<Event>, rs: seq<int>, observations: seq<bool>, exit: Exit, route: Event)
  {
    && Count(trace, LoginKind) <= LoginRetries && Count(trace, RunKind) <= 1
    && (Count(trace, PollKind) > 0 || Count(trace, SetParamKind) > 0 ==> 0 in rs)
    && (exit == StillMonitoring || exit == SleepRaised ==> PhaseCounts(trace, observations, exit == SleepRaised))
    && RoutesAre(trace, route)
  }

  /**
   * One bounded run of main. It stops before logging in when the arguments
   * are refused and before polling when login fails; so the device is polled
   * and routed only after a VBVMR_Login returned 0, every routing command is
   * the one for the configured target, and there is one per rising edge.
   */
  method RunMain(args: Args, loginResults: seq<int>, observations: seq<bool>)
    returns (exit: Exit, trace: seq<Event>)
    requires LoginRetries <= |loginResults|
    ensures exit == UsageError <==> !RequiredPresent(args)
    ensures exit == UsageError ==> trace == []
    ensures exit == LoginFailed <==> RequiredPresent(args) && 0 !in loginResults[..LoginRetries]
    ensures exit == SleepRaised <==>
              RequiredPresent(args) && 0 in loginResults[..LoginRetries]
              && args.checkDelay < 0 && observations != []
    ensures RequiredPresent(args) ==>
              var login := Attempts(loginResults[..LoginRetries], false, args.voicemeeterVersion, LoginRetryDelay).trace;
              var s := SettingsOf(Configure(args).value);
              && (exit == LoginFailed ==> trace == login)
              && (exit == SleepRaised ==> trace == login + TickEvents(s, observations[0], false))
              && (exit == StillMonitoring ==> trace == login + Ticks(s, observations))
    ensures LoginBeforeMonitoring(trace)
    ensures RequiredPresent(args) ==>
              SessionCounts(trace, loginResults[..LoginRetries], observations, exit,
                            SetOutputCommand(Target(args.busIndex.value, args.deviceType.value, args.deviceName.value)))
  {
    var configured := Configure(args);
    if configured.Failure? {
      exit, trace := UsageError, [];
      return;
    }
    exit, trace := Session(configured.value, loginResults, observations);
  }

  /**
   * main from the login on, with accepted settings: log in, and when that
   * succeeds run the monitoring loop over the observed ticks.
   */
  method Session(cfg: Config, loginResults: seq<int>, observations: seq<bool>)
    returns (exit: Exit, trace: seq<Event>)
    requires LoginRetries <= |loginResults|
    ensures exit != UsageError
    ensures exit == LoginFailed <==> 0 !in loginResults[..LoginRetries]
    ensures exit == SleepRaised <==>
              0 in loginResults[..LoginRetries] && cfg.checkDelay < 0 && observations != []
    ensures var login := Attempts(loginResults[..LoginRetries], false, cfg.version, LoginRetryDelay).trace;
            && (exit == LoginFailed ==> trace == login)
            && (exit == SleepRaised ==> trace == login + TickEvents(SettingsOf(cfg), observations[0], false))
            && (exit == StillMonitoring ==> trace == login + Ticks(SettingsOf(cfg), observations))
    ensures LoginBeforeMonitoring(trace)
    ensures SessionCounts(trace, loginResults[..LoginRetries], observations, exit, SetOutputCommand(cfg.route))
  {
    var ok, loginTrace := VoicemeeterLogin(cfg.version, LoginRetries, LoginRetryDelay, loginResults);
    if !ok {
      exit, trace := LoginFailed, loginTrace;
    } else {
      var connected, monitorTrace, raised := MonitorLoop(cfg, observations);
      trace := loginTrace + monitorTrace;
      exit := if raised then SleepRaised else StillMonitoring;
    }
    SessionFacts(cfg.version, SettingsOf(cfg), loginResults[..LoginRetries], observations, exit, trace);
  }

  /**
   * What follows from the events of a session with monitor settings `s`:
   * counts of each kind, the routing commands, and that monitoring starts
   * only after the login calls.
   */
  lemma SessionFacts(version: int, s: Settings, rs: seq<int>, observations: seq<bool>, exit: Exit, trace: seq<Event>)
    requires s.route.SetParam?
    requires |rs| == LoginRetries
    requires exit != UsageError
    requires exit == LoginFailed <==> 0 !in rs
    requires exit == SleepRaised ==> observations != []
    requires var login := Attempts(rs, false, version, LoginRetryDelay).trace;
             && (exit == LoginFailed ==> trace == login)
             && (exit == SleepRaised ==> trace == login + TickEvents(s, observations[0], false))
             && (exit == StillMonitoring ==> trace == login + Ticks(s, observations))
    ensures LoginBeforeMonitoring(trace)
    ensures SessionCounts(trace, rs, observations, exit, s.route)
  {
    var login := Attempts(rs, false, version, LoginRetryDelay);
    LoginFacts(rs, version, LoginRetryDelay, login.ok, login.trace);
    AttemptsQuiet(rs, false, version, LoginRetryDelay);
    if exit == LoginFailed {
      LoginOnly(login.trace);
    } else {
      var raised := exit == SleepRaised;
      var monitorTrace := if raised then TickEvents(s, observations[0], false) else Ticks(s, observations);
      MonitorPhase(s, observations, monitorTrace, raised);
      Monitored(s, observations, login.trace, monitorTrace, raised);
    }
  }

  /** A session that stops after login: no poll, no routing command. */
  lemma LoginOnly(loginTrace: seq<Event>)
    requires Count(loginTrace, PollKind) == 0 && Count(loginTrace, SetParamKind) == 0
    ensures LoginBeforeMonitoring(loginTrace)
    ensures forall k | 0 <= k < |loginTrace| :: !loginTrace[k].SetParam?
  {
    CountZero(loginTrace, SetParamKind);
    CountZero(loginTrace, PollKind);
  }

  /** A run that logged in: the login events followed by those of the monitoring phase. */
  lemma Monitored(s: Settings, observations: seq<bool>, loginTrace: seq<Event>, monitorTrace: seq<Event>, raised: bool)
    requires s.route.SetParam?
    requires Count(loginTrace, PollKind) == 0 && Count(loginTrace, SetParamKind) == 0
    requires Count(monitorTrace, LoginKind) == 0 && Count(monitorTrace, RunKind) == 0
    requires PhaseCounts(monitorTrace, observations, raised)
    requires RoutesAre(monitorTrace, s.route)
    ensures var t := loginTrace + monitorTrace;
            && Count(t, LoginKind) == Count(loginTrace, LoginKind)
            && Count(t, RunKind) == Count(loginTrace, RunKind)
            && PhaseCounts(t, observations, raised)
            && RoutesAre(t, s.route)
            && LoginBeforeMonitoring(t)
  {
    var t := loginTrace + monitorTrace;
    JoinTraces(loginTrace, monitorTrace, s.route);
    CountZero(loginTrace, PollKind);
    CountZero(loginTrace, SetParamKind);
    CountZero(monitorTrace, LoginKind);
    assert forall j | |loginTrace| <= j < |t| :: t[j] == monitorTrace[j - |loginTrace|];
    assert forall i | 0 <= i < |loginTrace| :: t[i] == loginTrace[i];
  }

  /** What the monitoring phase of a run contributes, whether or not the first sleep raised. */
  lemma MonitorPhase(s: Settings, observations: seq<bool>, monitorTrace: seq<Event>, raised: bool)
    requires s.route.SetParam?
    requires raised ==> observations != [] && monitorTrace == TickEvents(s, observations[0], false)
    requires !raised ==> monitorTrace == Ticks(s, observations)
    ensures Count(monitorTrace, LoginKind) == 0 && Count(monitorTrace, RunKind) == 0
    ensures PhaseCounts(monitorTrace, observations, raised)
    ensures RoutesAre(monitorTrace, s.route)
  {
    if raised {
      TickCounts(s, observations[0], false);
    } else {
      TicksCounts(s, observations);
      forall k | 0 <= k < |monitorTrace| && monitorTrace[k].SetParam?
        ensures monitorTrace[k] == s.route
      {
        TicksRoutePlacement(s, observations, k);
      }
    }
  }

  /** The events of the login phase followed by those of the monitoring phase. */
  lemma JoinTraces(loginTrace: seq<Event>, monitorTrace: seq<Event>, route: Event)
    requires Count(loginTrace, SetParamKind) == 0
    requires RoutesAre(monitorTrace, route)
    ensures forall k: Kind :: Count(loginTrace + monitorTrace, k) == Count(loginTrace, k) + Count(monitorTrace, k)
    ensures RoutesAre(loginTrace + monitorTrace, route)
  {
    var t := loginTrace + monitorTrace;
    forall k: Kind
      ensures Count(t, k) == Count(loginTrace, k) + Count(monitorTrace, k)
    {
      CountAppend(loginTrace, monitorTrace, k);
    }
    CountZero(loginTrace, SetParamKind);
    forall k | 0 <= k < |loginTrace|
      ensures !t[k].SetParam?
    {
      assert t[k] == loginTrace[k] && KindOf(loginTrace[k]) != SetParamKind;
    }
    forall k | |loginTrace| <= k < |t| && t[k].SetParam?
      ensures t[k] == route
    {
      assert t[k] == monitorTrace[k - |loginTrace|];
    }
  }
}
