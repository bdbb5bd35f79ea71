/**
 * The outward effects of the program, recorded in the order in which they
 * happen. Each event stands for one call into a foreign library or one
 * `time.sleep`; the values those calls return are inputs of the model.
 */
module Events {

  datatype Event =
    | Login                                 // one call of VBVMR_Login
    | Run(version: int)                     // VBVMR_RunVoicemeeter(version)
    | Sleep(seconds: int)                   // time.sleep(seconds)
    | Poll                                  // one HID presence query
    | SetParam(key: string, value: string)  // VBVMR_SetParameterStringA(key, value)

  /** The constructor of an event, without its arguments. */
  datatype Kind = LoginKind | RunKind | SleepKind | PollKind | SetParamKind

  function KindOf(e: Event): Kind
  {
    match e
    case Login => LoginKind
    case Run(_) => RunKind
    case Sleep(_) => SleepKind
    case Poll => PollKind
    case SetParam(_, _) => SetParamKind
  }

  /** How many events of kind `k` the trace `t` holds. */
  function Count(t: seq<Event>, k: Kind): (n: nat)
    ensures n <= |t|
    decreases |t|
  {
    if t == [] then 0
    else (if KindOf(t[0]) == k then 1 else 0) + Count(t[1..], k)
  }

  lemma {:induction false} CountAppend(a: seq<Event>, b: seq<Event>, k: Kind)
    ensures Count(a + b, k) == Count(a, k) + Count(b, k)
    decreases |a|
  {
    if a == [] {
      assert a + b == b;
    } else {
      assert (a + b)[1..] == a[1..] + b;
      CountAppend(a[1..], b, k);
    }
  }

  /** A kind that does not occur at all counts zero, and only such a kind does. */
  lemma {:induction false} CountZero(t: seq<Event>, k: Kind)
    ensures Count(t, k) == 0 <==> forall i | 0 <= i < |t| :: KindOf(t[i]) != k
    decreases |t|
  {
    if t != [] {
      CountZero(t[1..], k);
      assert forall i | 1 <= i < |t| :: t[i] == t[1..][i - 1];
    }
  }

  /** 1 when `e` is of kind `k`, else 0. */
  function Indicator(e: Event, k: Kind): nat
  {
    if KindOf(e) == k then 1 else 0
  }

  lemma CountOne(a: Event, k: Kind)
    ensures Count([a], k) == Indicator(a, k)
  {
    assert [a][1..] == [];
  }

  lemma CountTwo(a: Event, b: Event, k: Kind)
    ensures Count([a, b], k) == Indicator(a, k) + Indicator(b, k)
  {
    CountOne(b, k);
    assert [a, b][1..] == [b];
  }

  lemma CountThree(a: Event, b: Event, c: Event, k: Kind)
    ensures Count([a, b, c], k) == Indicator(a, k) + Indicator(b, k) + Indicator(c, k)
  {
    CountTwo(b, c, k);
    assert [a, b, c][1..] == [b, c];
  }
}
