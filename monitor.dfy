/**
 * The monitoring loop of main (main.py:118, 123-140). Each tick polls the
 * device's presence; on a false-to-true edge of `previously_connected` it
 * waits CONNECT_DELAY seconds when that is positive and then issues the
 * routing command; every tick ends with a sleep of `check_delay` seconds.
 * The loop never ends on its own, so the model runs the ticks of a finite
 * sequence of presence observations.
 */
module Monitor {
  import opened Events
  import opened Routing
  import opened Startup

  /** Presence starts a connection at tick `i`: present now, absent at the tick before (or no tick before). */
  predicate RisingAt(obs: seq<bool>, i: nat)
    requires i < |obs|
  {
    obs[i] && (i == 0 || !obs[i - 1])
  }

  /** How many ticks of `obs` start a connection: one per maximal run of present observations. */
  function RisingEdges(obs: seq<bool>): (n: nat)
    ensures n <= |obs|
    decreases |obs|
  {
    if obs == [] then 0
    else RisingEdges(obs[..|obs| - 1]) + (if RisingAt(obs, |obs| - 1) then 1 else 0)
  }

  /**
   * What the loop needs of the configuration: the `check_delay` sleep, the
   * CONNECT_DELAY settle sleep, and the routing command it issues.
   */
  datatype Settings = Settings(checkDelay: int, connectDelay: int, route: Event)

  function SettingsOf(cfg: Config): (s: Settings)
  {
    Settings(cfg.checkDelay, cfg.connectDelay, SetOutputCommand(cfg.route))
  }

  /** The events of one tick up to, not including, its closing sleep. */
  function TickEvents(s: Settings, connected: bool, previouslyConnected: bool): seq<Event>
  {
    if connected && !previouslyConnected then
      if s.connectDelay > 0 then [Poll, Sleep(s.connectDelay), s.route]
      else [Poll, s.route]
    else [Poll]
  }

  /**
   * The specification of the loop: the events of the ticks of `obs`, each
   * tick judged against the observation of the tick before it (absent before
   * the first) and closed by the `check_delay` sleep.
   */
  function Ticks(s: Settings, obs: seq<bool>): seq<Event>
    decreases |obs|
  {
    if obs == [] then []
    else
      var n := |obs| - 1;
      Ticks(s, obs[..n]) + TickEvents(s, obs[n], n > 0 && obs[n - 1]) + [Sleep(s.checkDelay)]
  }

  /**
   * The monitoring loop over the presence observations of its ticks.
   * `previously_connected` starts false and after each tick equals that
   * tick's observation. A negative `check_delay` makes `time.sleep` raise
   * at the end of the first tick, which ends the program (`raised`).
   */
  method MonitorLoop(cfg: Config, observations: seq<bool>)
    returns (previouslyConnected: bool, trace: seq<Event>, raised: bool)
    ensures raised <==> cfg.checkDelay < 0 && observations != []
    ensures !raised ==> trace == Ticks(SettingsOf(cfg), observations)
    ensures !raised ==> previouslyConnected == (observations != [] && observations[|observations| - 1])
    ensures raised ==> trace == TickEvents(SettingsOf(cfg), observations[0], false)
    ensures raised ==> previouslyConnected == observations[0]
  {
    ghost var s := SettingsOf(cfg);
    previouslyConnected := false;
    trace := [];
    raised := false;
    var i := 0;
    while i < |observations|
      invariant 0 <= i <= |observations|
      invariant cfg.checkDelay < 0 ==> i == 0
      invariant trace == Ticks(s, observations[..i])
      invariant previouslyConnected == (i > 0 && observations[i - 1])
    {
      var connected := observations[i];
      ghost var before := trace;
      ghost var wasConnected := previouslyConnected;
      trace := trace + [Poll];
      if connected && !previouslyConnected {
        if cfg.connectDelay > 0 {
          trace := trace + [Sleep(cfg.connectDelay)];
        }
        trace := trace + [SetOutputCommand(cfg.route)];
        previouslyConnected := true;
      } else if !connected && previouslyConnected {
        previouslyConnected := false;
      }
      assert trace == before + TickEvents(s, connected, wasConnected);
      if cfg.checkDelay < 0 {
        raised := true;
        return;
      }
      trace := trace + [Sleep(cfg.checkDelay)];
      assert observations[..i + 1][..i] == observations[..i];
      i := i + 1;
    }
    assert observations[..i] == observations;
  }

  /** One tick polls once, routes once on an edge, and sleeps before routing when the delay is positive. */
  lemma TickCounts(s: Settings, connected: bool, previouslyConnected: bool)
    requires s.route.SetParam?
    ensures var e := TickEvents(s, connected, previouslyConnected);
            var edge := connected && !previouslyConnected;
            && Count(e, PollKind) == 1
            && Count(e, SetParamKind) == (if edge then 1 else 0)
            && Count(e, SleepKind) == (if edge && s.connectDelay > 0 then 1 else 0)
            && Count(e, LoginKind) == 0 && Count(e, RunKind) == 0
  {
    var e := TickEvents(s, connected, previouslyConnected);
    if !connected || previouslyConnected {
      TickKinds(e, Poll, Poll, Poll, 1);
    } else if s.connectDelay > 0 {
      TickKinds(e, Poll, Sleep(s.connectDelay), s.route, 3);
    } else {
      TickKinds(e, Poll, s.route, s.route, 2);
    }
  }

  /** The counts of every kind in a tick of `len` events `a`, `b`, `c`. */
  lemma TickKinds(e: seq<Event>, a: Event, b: Event, c: Event, len: nat)
    requires 1 <= len <= 3
    requires e == [a, b, c][..len]
    ensures forall k: Kind :: Count(e, k) == Indicator(a, k) + (if len > 1 then Indicator(b, k) else 0)
                                            + (if len > 2 then Indicator(c, k) else 0)
  {
    forall k: Kind
      ensures Count(e, k) == Indicator(a, k) + (if len > 1 then Indicator(b, k) else 0)
                             + (if len > 2 then Indicator(c, k) else 0)
    {
      if len == 1 {
        assert e == [a];
        CountOne(a, k);
      } else if len == 2 {
        assert e == [a, b];
        CountTwo(a, b, k);
      } else {
        assert e == [a, b, c];
        CountThree(a, b, c, k);
      }
    }
  }

  /**
   * Over the ticks of `obs`: one presence poll per tick; one routing command
   * per false-to-true edge, so never for repeated present observations; one
   * closing sleep per tick plus one settle sleep per routing command when
   * CONNECT_DELAY is positive; and no login or launch.
   */
  lemma {:induction false} TicksCounts(s: Settings, obs: seq<bool>)
    requires s.route.SetParam?
    ensures var t := Ticks(s, obs);
            && Count(t, PollKind) == |obs|
            && Count(t, SetParamKind) == RisingEdges(obs)
            && Count(t, SleepKind) == |obs| + (if s.connectDelay > 0 then RisingEdges(obs) else 0)
            && Count(t, LoginKind) == 0 && Count(t, RunKind) == 0
    decreases |obs|
  {
    if obs != [] {
      var n := |obs| - 1;
      var prior := Ticks(s, obs[..n]);
      var tick := TickEvents(s, obs[n], n > 0 && obs[n - 1]);
      TicksCounts(s, obs[..n]);
      TickCounts(s, obs[n], n > 0 && obs[n - 1]);
      forall k: Kind
        ensures Count(Ticks(s, obs), k) == Count(prior, k) + Count(tick, k) + Indicator(Sleep(s.checkDelay), k)
      {
        CountAppend(prior, tick, k);
        CountAppend(prior + tick, [Sleep(s.checkDelay)], k);
        CountOne(Sleep(s.checkDelay), k);
      }
    }
  }

  /**
   * Where a routing command sits in the trace: it is the configured command,
   * directly after the settle sleep when CONNECT_DELAY is positive and directly
   * after the tick's poll otherwise, and the tick it belongs to (the number of
   * polls so far) is one where presence rose.
   */
  lemma {:induction false} TicksRoutePlacement(s: Settings, obs: seq<bool>, k: nat)
    requires s.route.SetParam?
    requires k < |Ticks(s, obs)| && Ticks(s, obs)[k].SetParam?
    ensures var t := Ticks(s, obs);
            && t[k] == s.route
            && 0 < k
            && t[k - 1] == (if s.connectDelay > 0 then Sleep(s.connectDelay) else Poll)
    ensures var n := Count(Ticks(s, obs)[..k], PollKind);
            1 <= n <= |obs| && RisingAt(obs, n - 1)
    decreases |obs|
  {
    var t := Ticks(s, obs);
    assert obs != [];
    var n := |obs| - 1;
    var prior := Ticks(s, obs[..n]);
    TicksLast(s, obs);
    if k < |prior| {
      assert t[..|prior|] == prior;
      assert prior[k] == t[k];
      TicksRoutePlacement(s, obs[..n], k);
      PlacementInPrior(obs, prior, t, k);
    } else {
      TicksCounts(s, obs[..n]);
      PlacementInLastTick(s, obs, prior, t, k);
    }
  }

  /** Unfolds Ticks at its last tick. */
  lemma TicksLast(s: Settings, obs: seq<bool>)
    requires obs != []
    ensures var n := |obs| - 1;
            Ticks(s, obs) == Ticks(s, obs[..n]) + (TickEvents(s, obs[n], n > 0 && obs[n - 1]) + [Sleep(s.checkDelay)])
  {
  }

  lemma PlacementInPrior(obs: seq<bool>, prior: seq<Event>, t: seq<Event>, k: nat)
    requires obs != [] && 0 < k < |prior| <= |t| && t[..|prior|] == prior
    requires var n := Count(prior[..k], PollKind); 1 <= n <= |obs| - 1 && RisingAt(obs[..|obs| - 1], n - 1)
    ensures t[k] == prior[k] && t[k - 1] == prior[k - 1]
    ensures var n := Count(t[..k], PollKind); 1 <= n <= |obs| && RisingAt(obs, n - 1)
  {
    assert t[k] == t[..|prior|][k] && t[k - 1] == t[..|prior|][k - 1];
    assert t[..k] == prior[..k];
  }

  lemma PlacementInLastTick(s: Settings, obs: seq<bool>, prior: seq<Event>, t: seq<Event>, k: nat)
    requires obs != [] && s.route.SetParam?
    requires Count(prior, PollKind) == |obs| - 1
    requires t == prior + (TickEvents(s, obs[|obs| - 1], |obs| > 1 && obs[|obs| - 2]) + [Sleep(s.checkDelay)])
    requires |prior| <= k < |t| && t[k].SetParam?
    ensures t[k] == s.route && 0 < k
    ensures t[k - 1] == (if s.connectDelay > 0 then Sleep(s.connectDelay) else Poll)
    ensures var n := Count(t[..k], PollKind); 1 <= n <= |obs| && RisingAt(obs, n - 1)
  {
    var n := |obs| - 1;
    var connected, previously := obs[n], n > 0 && obs[n - 1];
    RouteOnlyOnEdge(s, connected, previously, prior, Sleep(s.checkDelay), t, k);
    var lead := EdgeTick(s);
    RouteAfterLead(prior, lead, s.route, Sleep(s.checkDelay), t, k);
    CountAppend(prior, lead, PollKind);
    assert RisingAt(obs, n);
  }

  /** The events of a tick that sees the device appear: its lead-in, then the command. */
  lemma EdgeTick(s: Settings) returns (lead: seq<Event>)
    ensures lead == if s.connectDelay > 0 then [Poll, Sleep(s.connectDelay)] else [Poll]
    ensures TickEvents(s, true, false) == lead + [s.route]
  {
    lead := if s.connectDelay > 0 then [Poll, Sleep(s.connectDelay)] else [Poll];
  }

  /** A tick issues a command only when the device has just appeared. */
  lemma RouteOnlyOnEdge(s: Settings, connected: bool, previouslyConnected: bool, prior: seq<Event>,
                        closing: Event, t: seq<Event>, k: nat)
    requires closing.Sleep?
    requires t == prior + (TickEvents(s, connected, previouslyConnected) + [closing])
    requires |prior| <= k < |t| && t[k].SetParam?
    ensures connected && !previouslyConnected
  {
    var rest := TickEvents(s, connected, previouslyConnected) + [closing];
    Split(prior, rest, k - |prior|);
  }

  /** A routing command that follows its tick's lead-in is preceded by exactly that tick's poll. */
  lemma RouteAfterLead(prior: seq<Event>, lead: seq<Event>, route: Event, closing: Event, t: seq<Event>, k: nat)
    requires lead == [Poll] || (|lead| == 2 && lead[0] == Poll && lead[1].Sleep?)
    requires route.SetParam? && closing.Sleep?
    requires t == prior + (lead + [route] + [closing])
    requires |prior| <= k < |t| && t[k].SetParam?
    ensures k == |prior| + |lead| && t[k] == route && t[k - 1] == lead[|lead| - 1]
    ensures t[..k] == prior + lead && Count(lead, PollKind) == 1
  {
    var rest := lead + [route] + [closing];
    Split(prior, rest, k - |prior|);
    if |lead| == 2 {
      CountTwo(Poll, lead[1], PollKind);
      assert lead == [Poll, lead[1]];
    } else {
      CountOne(Poll, PollKind);
    }
    assert rest[..|lead|] == lead;
  }

  /** Indexing and taking a prefix past the first part of a concatenation. */
  lemma Split(a: seq<Event>, b: seq<Event>, j: nat)
    requires j < |b|
    ensures (a + b)[|a| + j] == b[j]
    ensures j > 0 ==> (a + b)[|a| + j - 1] == b[j - 1]
    ensures (a + b)[..|a| + j] == a + b[..j]
  {
  }
}
