/**
 * voicemeeter_login (main.py:11-53): up to `retries` calls of VBVMR_Login.
 * A negative result sleeps `retry_delay` and retries; the first result 1
 * launches the requested Voicemeeter version once and sleeps 5 seconds;
 * 0 is success; anything else (a later 1 included) sleeps `retry_delay`
 * and retries. The results of the successive VBVMR_Login calls are an input.
 */
module Login {
  import opened Events

  /** Seconds voicemeeter_login waits after launching Voicemeeter. */
  const LaunchWait := 5

  /** Whether login succeeded, and the calls and sleeps it made on the way. */
  datatype LoginResult = LoginResult(ok: bool, trace: seq<Event>)

  /** Number of loop iterations `for attempt in range(retries)` allows. */
  function Budget(retries: int): nat
  {
    if retries < 0 then 0 else retries
  }

  function Prepend(p: seq<Event>, r: LoginResult): LoginResult
  {
    LoginResult(r.ok, p + r.trace)
  }

  /**
   * The events of one attempt that did not succeed: the VBVMR_Login call, then
   * either the launch and its 5-second wait (a first result 1) or a sleep of
   * `delay` (a negative result, or any other non-zero one).
   */
  function Block(code: int, started: bool, version: int, delay: int): (b: seq<Event>)
    ensures 2 <= |b| <= 3 && b[0] == Login
    ensures |b| == 3 <==> code == 1 && !started
    ensures |b| == 3 ==> b[1] == Run(version)
    ensures b[|b| - 1] == Sleep(if code == 1 && !started then LaunchWait else delay)
  {
    if code == 1 && !started then [Login, Run(version), Sleep(LaunchWait)] else [Login, Sleep(delay)]
  }

  /**
   * The specification of the retry loop: what the remaining attempts do when
   * VBVMR_Login returns `rs` in turn and `started` says whether Voicemeeter
   * has been launched already. A 0 ends the loop with success; every other
   * result is one Block, after which Voicemeeter counts as started if it was
   * or if the result was 1.
   */
  function Attempts(rs: seq<int>, started: bool, version: int, delay: int): LoginResult
    decreases |rs|
  {
    if rs == [] then LoginResult(false, [])
    else if rs[0] == 0 then LoginResult(true, [Login])
    else Prepend(Block(rs[0], started, version, delay), Attempts(rs[1..], started || rs[0] == 1, version, delay))
  }

  /** The first position of `x` in `rs`. */
  function IndexOf(rs: seq<int>, x: int): (i: nat)
    requires x in rs
    ensures i < |rs| && rs[i] == x && x !in rs[..i]
  {
    if rs[0] == x then 0
    else
      assert rs == [rs[0]] + rs[1..];
      var j := IndexOf(rs[1..], x);
      assert rs[..j + 1] == [rs[0]] + rs[1..][..j];
      j + 1
  }

  /** How many times VBVMR_Login is called: up to and including the first 0, else all of `rs`. */
  function Calls(rs: seq<int>): (n: nat)
    ensures n <= |rs|
  {
    if 0 in rs then IndexOf(rs, 0) + 1 else |rs|
  }

  lemma CallsTail(rs: seq<int>)
    requires rs != [] && rs[0] != 0
    ensures Calls(rs) == Calls(rs[1..]) + 1
    ensures rs[..Calls(rs)] == [rs[0]] + rs[1..][..Calls(rs[1..])]
  {
    assert rs == [rs[0]] + rs[1..];
    assert 0 in rs <==> 0 in rs[1..];
  }

  /** Each failed attempt calls VBVMR_Login once, sleeps once, and launches at most once. */
  lemma BlockCounts(code: int, started: bool, version: int, delay: int)
    ensures var b := Block(code, started, version, delay);
            && Count(b, LoginKind) == 1 && Count(b, SleepKind) == 1
            && Count(b, RunKind) == (if code == 1 && !started then 1 else 0)
            && Count(b, PollKind) == 0 && Count(b, SetParamKind) == 0
  {
    CountThree(Login, Run(version), Sleep(LaunchWait), LoginKind);
    CountThree(Login, Run(version), Sleep(LaunchWait), SleepKind);
    CountThree(Login, Run(version), Sleep(LaunchWait), RunKind);
    CountThree(Login, Run(version), Sleep(LaunchWait), PollKind);
    CountThree(Login, Run(version), Sleep(LaunchWait), SetParamKind);
    CountTwo(Login, Sleep(delay), LoginKind);
    CountTwo(Login, Sleep(delay), SleepKind);
    CountTwo(Login, Sleep(delay), RunKind);
    CountTwo(Login, Sleep(delay), PollKind);
    CountTwo(Login, Sleep(delay), SetParamKind);
  }

  /** Login succeeds exactly when some call returns 0. */
  lemma {:induction false} AttemptsOk(rs: seq<int>, started: bool, version: int, delay: int)
    ensures Attempts(rs, started, version, delay).ok <==> 0 in rs
    decreases |rs|
  {
    if rs != [] && rs[0] != 0 {
      assert rs == [rs[0]] + rs[1..];
      AttemptsOk(rs[1..], started || rs[0] == 1, version, delay);
    }
  }

  /** VBVMR_Login is called once per attempt, and no attempt follows the first 0. */
  lemma {:induction false} AttemptsLogins(rs: seq<int>, started: bool, version: int, delay: int)
    ensures Count(Attempts(rs, started, version, delay).trace, LoginKind) == Calls(rs)
    decreases |rs|
  {
    if rs != [] && rs[0] != 0 {
      var block := Block(rs[0], started, version, delay);
      var tail := Attempts(rs[1..], started || rs[0] == 1, version, delay).trace;
      AttemptsLogins(rs[1..], started || rs[0] == 1, version, delay);
      CallsTail(rs);
      BlockCounts(rs[0], started, version, delay);
      CountAppend(block, tail, LoginKind);
    }
  }

  /**
   * Voicemeeter is launched at most once, and only when a 1 comes back before
   * the first 0 and it was not launched already.
   */
  lemma {:induction false} AttemptsLaunch(rs: seq<int>, started: bool, version: int, delay: int)
    ensures Count(Attempts(rs, started, version, delay).trace, RunKind)
            == if !started && 1 in rs[..Calls(rs)] then 1 else 0
    decreases |rs|
  {
    if rs != [] && rs[0] != 0 {
      var block := Block(rs[0], started, version, delay);
      var tail := Attempts(rs[1..], started || rs[0] == 1, version, delay).trace;
      AttemptsHead(rs, started, version, delay);
      AttemptsLaunch(rs[1..], started || rs[0] == 1, version, delay);
      CallsTail(rs);
      BlockCounts(rs[0], started, version, delay);
      CountAppend(block, tail, RunKind);
    } else if rs != [] {
      assert rs[..Calls(rs)] == [0];
    }
  }

  /** The only version ever launched is the requested one. */
  lemma {:induction false} AttemptsRunVersion(rs: seq<int>, started: bool, version: int, delay: int)
    ensures var t := Attempts(rs, started, version, delay).trace;
            forall i | 0 <= i < |t| && t[i].Run? :: t[i] == Run(version)
    decreases |rs|
  {
    var t := Attempts(rs, started, version, delay).trace;
    if rs != [] && rs[0] != 0 {
      var block := Block(rs[0], started, version, delay);
      var tail := Attempts(rs[1..], started || rs[0] == 1, version, delay).trace;
      AttemptsHead(rs, started, version, delay);
      AttemptsRunVersion(rs[1..], started || rs[0] == 1, version, delay);
      forall i | 0 <= i < |t| && t[i].Run?
        ensures t[i] == Run(version)
      {
        if i >= |block| {
          assert t[i] == tail[i - |block|];
        }
      }
    }
  }

  /**
   * The launch happens on the attempt that first returned 1: exactly that many
   * VBVMR_Login calls precede it.
   */
  lemma {:induction false} AttemptsLaunchAttempt(rs: seq<int>, version: int, delay: int, k: nat)
    requires k < |Attempts(rs, false, version, delay).trace|
    requires Attempts(rs, false, version, delay).trace[k].Run?
    ensures 1 in rs
    ensures Count(Attempts(rs, false, version, delay).trace[..k], LoginKind) == IndexOf(rs, 1) + 1
    decreases |rs|
  {
    var t := Attempts(rs, false, version, delay).trace;
    assert rs != [] && rs[0] != 0;
    AttemptsHead(rs, false, version, delay);
    if rs[0] == 1 {
      var tail := Attempts(rs[1..], true, version, delay).trace;
      AttemptsLaunch(rs[1..], true, version, delay);
      CountZero(tail, RunKind);
      LaunchFirst(t, tail, version, k);
    } else {
      var tail := Attempts(rs[1..], false, version, delay).trace;
      assert t == [Login, Sleep(delay)] + tail;
      assert k >= 2 && t[k] == tail[k - 2];
      AttemptsLaunchAttempt(rs[1..], version, delay, k - 2);
      LaunchLater(rs, t, tail, delay, k);
    }
  }

  /** Unfolds Attempts once at a failed attempt. */
  lemma AttemptsHead(rs: seq<int>, started: bool, version: int, delay: int)
    requires rs != [] && rs[0] != 0
    ensures var r := Attempts(rs, started, version, delay);
            var tail := Attempts(rs[1..], started || rs[0] == 1, version, delay);
            r.ok == tail.ok && r.trace == Block(rs[0], started, version, delay) + tail.trace
  {
  }

  lemma LaunchFirst(t: seq<Event>, tail: seq<Event>, version: int, k: nat)
    requires t == [Login, Run(version), Sleep(LaunchWait)] + tail
    requires forall i | 0 <= i < |tail| :: KindOf(tail[i]) != RunKind
    requires k < |t| && t[k].Run?
    ensures k == 1 && Count(t[..k], LoginKind) == 1
  {
    assert forall i | 3 <= i < |t| :: t[i] == tail[i - 3];
    assert t[..1] == [Login];
    CountOne(Login, LoginKind);
  }

  lemma LaunchLater(rs: seq<int>, t: seq<Event>, tail: seq<Event>, delay: int, k: nat)
    requires rs != [] && rs[0] != 0 && rs[0] != 1
    requires t == [Login, Sleep(delay)] + tail && 2 <= k <= |t|
    requires 1 in rs[1..] && Count(tail[..k - 2], LoginKind) == IndexOf(rs[1..], 1) + 1
    ensures 1 in rs && Count(t[..k], LoginKind) == IndexOf(rs, 1) + 1
  {
    assert t[..k] == [Login, Sleep(delay)] + tail[..k - 2];
    CountAppend([Login, Sleep(delay)], tail[..k - 2], LoginKind);
    CountTwo(Login, Sleep(delay), LoginKind);
    assert rs == [rs[0]] + rs[1..];
  }

  /** Every attempt but a successful one is followed by exactly one sleep. */
  lemma {:induction false} AttemptsSleeps(rs: seq<int>, started: bool, version: int, delay: int)
    ensures var r := Attempts(rs, started, version, delay);
            Count(r.trace, SleepKind) == Calls(rs) - (if r.ok then 1 else 0)
    decreases |rs|
  {
    if rs != [] && rs[0] != 0 {
      var block := Block(rs[0], started, version, delay);
      var tail := Attempts(rs[1..], started || rs[0] == 1, version, delay);
      AttemptsSleeps(rs[1..], started || rs[0] == 1, version, delay);
      AttemptsLogins(rs[1..], started || rs[0] == 1, version, delay);
      CallsTail(rs);
      BlockCounts(rs[0], started, version, delay);
      CountAppend(block, tail.trace, SleepKind);
    }
  }

  /**
   * The order of the events at position `k` of a login trace: a sleep directly
   * follows a failed VBVMR_Login (`delay`) or the launch (LaunchWait); the launch
   * directly follows a VBVMR_Login and is directly followed by the LaunchWait
   * sleep; a VBVMR_Login is last exactly when it succeeded.
   */
  predicate OrderedAt(t: seq<Event>, k: nat, ok: bool, delay: int)
    requires k < |t|
  {
    && (t[k].Sleep? ==> 0 < k && ((t[k - 1] == Login && t[k] == Sleep(delay))
                                  || (t[k - 1].Run? && t[k] == Sleep(LaunchWait))))
    && (t[k].Run? ==> 0 < k && t[k - 1] == Login)
    && (t[k].Run? ==> k + 1 < |t| && t[k + 1] == Sleep(LaunchWait))
    && (t[k] == Login && k + 1 == |t| ==> ok)
    && (t[k] == Login && k + 1 < |t| ==> (t[k + 1] == Sleep(delay) || t[k + 1].Run?))
  }

  /** The order of the calls in the whole trace, and a success ends it with a VBVMR_Login. */
  lemma {:induction false} AttemptsOrder(rs: seq<int>, started: bool, version: int, delay: int)
    ensures var r := Attempts(rs, started, version, delay);
            && (r.trace == [] <==> rs == [])
            && (r.trace != [] ==> r.trace[0] == Login)
            && (r.ok ==> r.trace != [] && r.trace[|r.trace| - 1] == Login)
            && forall k | 0 <= k < |r.trace| :: OrderedAt(r.trace, k, r.ok, delay)
    decreases |rs|
  {
    var r := Attempts(rs, started, version, delay);
    if rs != [] && rs[0] != 0 {
      var block := Block(rs[0], started, version, delay);
      var tail := Attempts(rs[1..], started || rs[0] == 1, version, delay);
      AttemptsOrder(rs[1..], started || rs[0] == 1, version, delay);
      OrderStep(block, tail.trace, r.ok, delay);
    }
  }

  lemma OrderStep(block: seq<Event>, tail: seq<Event>, ok: bool, delay: int)
    requires block == [Login, Sleep(delay)] || (|block| == 3 && block[0] == Login && block[1].Run? && block[2] == Sleep(LaunchWait))
    requires tail != [] ==> tail[0] == Login
    requires tail == [] ==> !ok
    requires forall k | 0 <= k < |tail| :: OrderedAt(tail, k, ok, delay)
    ensures forall k | 0 <= k < |block + tail| :: OrderedAt(block + tail, k, ok, delay)
  {
    var t := block + tail;
    forall k | 0 <= k < |t|
      ensures OrderedAt(t, k, ok, delay)
    {
      if k >= |block| {
        var j := k - |block|;
        assert t[k] == tail[j] && OrderedAt(tail, j, ok, delay);
        if j > 0 {
          assert t[k - 1] == tail[j - 1];
        }
        if j + 1 < |tail| {
          assert t[k + 1] == tail[j + 1];
        }
      } else if k + 1 == |block| && tail != [] {
        assert t[k + 1] == tail[0];
      }
    }
  }

  /**
   * voicemeeter_login itself: the `for attempt in range(retries)` loop over the
   * results VBVMR_Login returns, with the `voicemeeter_started` flag. It is
   * exactly Attempts on the first `retries` results; in particular it succeeds
   * iff one of them is 0, calls VBVMR_Login at most `retries` times (never when
   * `retries <= 0`) and launches Voicemeeter at most once.
   */
  method VoicemeeterLogin(version: int, retries: int, retryDelay: int, results: seq<int>)
    returns (ok: bool, trace: seq<Event>)
    requires retries <= |results|
    ensures LoginResult(ok, trace) == Attempts(results[..Budget(retries)], false, version, retryDelay)
    ensures ok <==> 0 in results[..Budget(retries)]
    ensures Count(trace, LoginKind) == Calls(results[..Budget(retries)]) <= Budget(retries)
    ensures 0 !in results[..Budget(retries)] ==> Count(trace, LoginKind) == Budget(retries)
    ensures retries <= 0 ==> !ok && trace == []
    ensures Count(trace, RunKind) <= 1
    ensures forall i | 0 <= i < |trace| && trace[i].Run? :: trace[i] == Run(version)
  {
    var n := Budget(retries);
    var rs := results[..n];
    var started := false;
    trace := [];
    var attempt := 0;
    while attempt < retries
      invariant 0 <= attempt <= n
      invariant Attempts(rs, false, version, retryDelay)
                == Prepend(trace, Attempts(rs[attempt..], started, version, retryDelay))
    {
      var val := results[attempt];
      ghost var before := trace;
      ghost var wasStarted := started;
      if val < 0 {
        trace := trace + [Login, Sleep(retryDelay)];
      } else if val == 1 && !started {
        trace := trace + [Login, Run(version)];
        started := true;
        trace := trace + [Sleep(LaunchWait)];
      } else if val == 0 {
        ok := true;
        trace := trace + [Login];
        LoopSucceeds(rs, attempt, wasStarted, before, version, retryDelay);
        LoginFacts(rs, version, retryDelay, ok, trace);
        return;
      } else {
        trace := trace + [Login, Sleep(retryDelay)];
      }
      assert trace == before + Block(val, wasStarted, version, retryDelay);
      assert started == (wasStarted || val == 1);
      LoopStep(rs, attempt, wasStarted, before, version, retryDelay);
      attempt := attempt + 1;
    }
    ok := false;
    assert rs[attempt..] == [];
    LoginFacts(rs, version, retryDelay, ok, trace);
  }

  /** A failed attempt at position `i` extends the trace by its Block. */
  lemma LoopStep(rs: seq<int>, i: nat, started: bool, trace: seq<Event>, version: int, delay: int)
    requires i < |rs| && rs[i] != 0
    requires Attempts(rs, false, version, delay) == Prepend(trace, Attempts(rs[i..], started, version, delay))
    ensures Attempts(rs, false, version, delay)
            == Prepend(trace + Block(rs[i], started, version, delay),
                       Attempts(rs[i + 1..], started || rs[i] == 1, version, delay))
  {
    assert rs[i..][1..] == rs[i + 1..];
    var tail := Attempts(rs[i + 1..], started || rs[i] == 1, version, delay);
    var block := Block(rs[i], started, version, delay);
    assert Attempts(rs[i..], started, version, delay) == Prepend(block, tail);
    assert trace + (block + tail.trace) == (trace + block) + tail.trace;
  }

  /** A 0 at position `i` ends the run with success, right after its VBVMR_Login. */
  lemma LoopSucceeds(rs: seq<int>, i: nat, started: bool, trace: seq<Event>, version: int, delay: int)
    requires i < |rs| && rs[i] == 0
    requires Attempts(rs, false, version, delay) == Prepend(trace, Attempts(rs[i..], started, version, delay))
    ensures Attempts(rs, false, version, delay) == LoginResult(true, trace + [Login])
  {
  }

  /** What the lemmas above give about a whole login run with outcome `ok` and `trace`. */
  lemma LoginFacts(rs: seq<int>, version: int, delay: int, ok: bool, trace: seq<Event>)
    requires LoginResult(ok, trace) == Attempts(rs, false, version, delay)
    ensures ok <==> 0 in rs
    ensures Count(trace, LoginKind) == Calls(rs) <= |rs|
    ensures 0 !in rs ==> Count(trace, LoginKind) == |rs|
    ensures Count(trace, RunKind) <= 1
    ensures forall i | 0 <= i < |trace| && trace[i].Run? :: trace[i] == Run(version)
    ensures rs == [] ==> !ok && trace == []
  {
    AttemptsOk(rs, false, version, delay);
    AttemptsLogins(rs, false, version, delay);
    AttemptsLaunch(rs, false, version, delay);
    AttemptsRunVersion(rs, false, version, delay);
  }

  /** Logging in neither polls the device nor sets a parameter. */
  lemma {:induction false} AttemptsQuiet(rs: seq<int>, started: bool, version: int, delay: int)
    ensures var t := Attempts(rs, started, version, delay).trace;
            Count(t, PollKind) == 0 && Count(t, SetParamKind) == 0
    decreases |rs|
  {
    var t := Attempts(rs, started, version, delay).trace;
    if rs != [] && rs[0] != 0 {
      var block := Block(rs[0], started, version, delay);
      var tail := Attempts(rs[1..], started || rs[0] == 1, version, delay).trace;
      AttemptsQuiet(rs[1..], started || rs[0] == 1, version, delay);
      BlockCounts(rs[0], started, version, delay);
      CountAppend(block, tail, PollKind);
      CountAppend(block, tail, SetParamKind);
    } else if rs != [] {
      CountOne(Login, PollKind);
      CountOne(Login, SetParamKind);
    }
  }
}

